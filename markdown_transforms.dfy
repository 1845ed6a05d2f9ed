/** The math-delimiter scanner of the Markdown/HTML bridge: splitting text
    into plain text, inline `$…$` and block `$$…$$` segments, the strings the
    two Turndown math rules emit, the tag names whose subtrees are never
    scanned, and the server-side plain-text extraction from HTML. */
module MarkdownTransforms {
  import opened Text

  datatype SegmentKind = TextKind | InlineKind | BlockKind

  datatype Segment = Segment(kind: SegmentKind, value: string)

  // ---------------------------------------------------------------------
  // Escapes

  /** Length of the run of backslashes that ends just before index `i`. */
  function SlashRun(s: string, i: nat): (n: nat)
    requires i <= |s|
    ensures n <= i
    ensures forall k :: i - n <= k < i ==> s[k] == '\\'
    ensures n < i ==> s[i - n - 1] != '\\'
    decreases i
  {
    if i == 0 || s[i - 1] != '\\' then 0 else 1 + SlashRun(s, i - 1)
  }

  /** The character at `i` is escaped by an odd number of backslashes. */
  predicate Escaped(s: string, i: nat)
    requires i <= |s|
  {
    SlashRun(s, i) % 2 == 1
  }

  /** Counts the backslashes before `index`, walking left. */
  method IsEscaped(input: string, index: nat) returns (escaped: bool)
    requires index <= |input|
    ensures escaped <==> SlashRun(input, index) % 2 == 1
  {
    var slashCount := 0;
    var i := index - 1;
    while i >= 0 && input[i] == '\\'
      invariant -1 <= i < index
      invariant slashCount + SlashRun(input, i + 1) == SlashRun(input, index)
      decreases i
    {
      slashCount := slashCount + 1;
      i := i - 1;
    }
    escaped := slashCount % 2 == 1;
  }

  // ---------------------------------------------------------------------
  // Closing delimiters

  predicate IsLineBreak(c: char) {
    c == '\n' || c == '\r'
  }

  /** A `$$` closer at `j`: two dollars, the first one unescaped. */
  predicate BlockCloseAt(s: string, j: int) {
    0 <= j && j + 1 < |s| && s[j] == '$' && s[j + 1] == '$' && !Escaped(s, j)
  }

  /** A `$` closer at `j`: unescaped, and no dollar on either side. */
  predicate InlineCloseAt(s: string, j: int) {
    0 <= j < |s| && s[j] == '$' && !Escaped(s, j)
    && !(j >= 1 && s[j - 1] == '$') && !(j + 1 < |s| && s[j + 1] == '$')
  }

  /** No line break in `s[from..to)`. */
  predicate NoBreak(s: string, from: nat, to: nat)
    requires from <= to <= |s|
  {
    forall k :: from <= k < to ==> !IsLineBreak(s[k])
  }

  /** The closer the scanner finds from `from` on, or -1; `FindCloseSpec`
      states which index that is. */
  function FindClose(s: string, from: nat, block: bool): (r: int)
    requires from <= |s|
    ensures r == -1 || from <= r < |s|
    ensures block && r >= 0 ==> r + 1 < |s|
    decreases |s| - from
  {
    if block then
      if from + 1 >= |s| then -1
      else if BlockCloseAt(s, from) then from
      else FindClose(s, from + 1, block)
    else
      if from >= |s| || IsLineBreak(s[from]) then -1
      else if InlineCloseAt(s, from) then from
      else FindClose(s, from + 1, block)
  }

  /** A block closer is the first `$$` whose first dollar is unescaped, at
      most at `|s| - 2`; an inline closer is the first unescaped `$` with no
      dollar beside it, found before any line break; -1 when there is none. */
  lemma {:induction false} FindCloseSpec(s: string, from: nat, block: bool)
    requires from <= |s|
    ensures var r := FindClose(s, from, block);
      && (block && r >= 0 ==> BlockCloseAt(s, r) && r <= |s| - 2)
      && (block && r >= 0 ==> forall j :: from <= j < r ==> !BlockCloseAt(s, j))
      && (block && r < 0 ==> forall j :: from <= j < |s| ==> !BlockCloseAt(s, j))
      && (!block && r >= 0 ==> InlineCloseAt(s, r) && NoBreak(s, from, r))
      && (!block && r >= 0 ==> forall j :: from <= j < r ==> !InlineCloseAt(s, j))
      && (!block && r < 0 ==> forall j :: from <= j < |s| && NoBreak(s, from, j) ==> !InlineCloseAt(s, j))
    decreases |s| - from
  {
    if block {
      if from + 1 < |s| && !BlockCloseAt(s, from) {
        FindCloseSpec(s, from + 1, block);
      }
    } else {
      if from < |s| && !IsLineBreak(s[from]) && !InlineCloseAt(s, from) {
        FindCloseSpec(s, from + 1, block);
      }
    }
  }

  method FindClosingDelimiter(input: string, fromIndex: nat, block: bool) returns (r: int)
    requires fromIndex <= |input|
    ensures r == FindClose(input, fromIndex, block)
  {
    if block {
      var i := fromIndex;
      while i + 1 < |input|
        invariant fromIndex <= i <= |input|
        invariant FindClose(input, i, true) == FindClose(input, fromIndex, true)
        decreases |input| - i
      {
        if input[i] == '$' && input[i + 1] == '$' {
          var escaped := IsEscaped(input, i);
          if !escaped {
            return i;
          }
        }
        i := i + 1;
      }
      return -1;
    }
    var i := fromIndex;
    while i < |input|
      invariant fromIndex <= i <= |input|
      invariant FindClose(input, i, false) == FindClose(input, fromIndex, false)
      decreases |input| - i
    {
      var ch := input[i];
      if ch == '\n' || ch == '\r' {
        return -1;
      }
      if ch == '$' {
        var escaped := IsEscaped(input, i);
        if !escaped && !(i - 1 >= 0 && input[i - 1] == '$') && !(i + 1 < |input| && input[i + 1] == '$') {
          return i;
        }
      }
      i := i + 1;
    }
    return -1;
  }

  // ---------------------------------------------------------------------
  // Segmentation

  /** `plain.join("")`. */
  function Join(chunks: seq<string>): string {
    if chunks == [] then [] else Join(chunks[..|chunks| - 1]) + chunks[|chunks| - 1]
  }

  lemma JoinAppend(chunks: seq<string>, c: string)
    ensures Join(chunks + [c]) == Join(chunks) + c
  {
    assert (chunks + [c])[..|chunks|] == chunks;
  }

  lemma JoinPair(a: string, b: string)
    ensures Join([a, b]) == a + b
  {
    assert [a][..0] == [];
    assert Join([a]) == a;
    assert [a, b][..1] == [a];
  }

  /** `segments` after the pending plain chunks have been flushed into one text segment. */
  function Flushed(segments: seq<Segment>, plain: seq<string>): seq<Segment> {
    if plain == [] then segments else segments + [Segment(TextKind, Join(plain))]
  }

  method AppendPlain(segments: seq<Segment>, plain: seq<string>)
    returns (segments': seq<Segment>, plain': seq<string>)
    ensures plain' == []
    ensures plain == [] ==> segments' == segments
    ensures plain != [] ==> segments' == segments + [Segment(TextKind, Join(plain))]
    ensures segments' == Flushed(segments, plain)
  {
    segments', plain' := segments, plain;
    if |plain'| == 0 {
      return;
    }
    segments' := segments' + [Segment(TextKind, Join(plain'))];
    plain' := [];
  }

  function Width(block: bool): nat {
    if block then 2 else 1
  }

  /** Whether the `$` at `i` opens a block: it is followed by an unescaped `$`. */
  predicate OpensBlock(s: string, i: nat)
    requires i < |s|
  {
    i + 1 < |s| && s[i + 1] == '$' && !Escaped(s, i + 1)
  }

  /** What the scanner does at index `i`: keep the character as plain text,
      keep a blank delimiter pair verbatim up to `end`, or emit a math
      segment and resume at `end`. */
  datatype Step = Char | Verbatim(end: nat) | Math(kind: SegmentKind, formula: string, end: nat)

  function StepAt(s: string, i: nat): (st: Step)
    requires i < |s|
    ensures !st.Char? ==> i < st.end <= |s|
    ensures st.Math? ==> st.kind != TextKind && st.formula != [] && IsTrimmed(st.formula)
  {
    if s[i] != '$' || Escaped(s, i) then Char
    else
      var block := OpensBlock(s, i);
      var w := Width(block);
      var close := FindClose(s, i + w, block);
      if close < 0 then Char else StepClosed(s, i, block, close)
  }

  /** The step once the closer of the `$` at `i` has been found at `close`:
      a blank body is kept verbatim, any other body becomes a math segment. */
  function StepClosed(s: string, i: nat, block: bool, close: nat): (st: Step)
    requires i + Width(block) <= close && close + Width(block) <= |s|
    ensures !st.Char? && st.end == close + Width(block)
    ensures st.Verbatim? <==> Trim(s[i + Width(block)..close]) == []
    ensures st.Math? ==> st.kind == (if block then BlockKind else InlineKind) && st.formula == Trim(s[i + Width(block)..close])
    ensures st.Math? ==> st.formula != [] && IsTrimmed(st.formula)
  {
    var w := Width(block);
    var formula := Trim(s[i + w..close]);
    if formula == [] then Verbatim(close + w)
    else Math(if block then BlockKind else InlineKind, formula, close + w)
  }

  /** The scan from index `i` with pending chunks `plain` and finished `segments`. */
  function ParseFrom(s: string, i: nat, plain: seq<string>, segments: seq<Segment>): seq<Segment>
    requires i <= |s|
    decreases |s| - i
  {
    if i == |s| then Flushed(segments, plain)
    else
      match StepAt(s, i)
      case Char => ParseFrom(s, i + 1, plain + [[s[i]]], segments)
      case Verbatim(end) => ParseFrom(s, end, plain + [s[i..end]], segments)
      case Math(kind, formula, end) => ParseFrom(s, end, [], Flushed(segments, plain) + [Segment(kind, formula)])
  }

  lemma StepAtPlain(s: string, i: nat)
    requires i < |s| && (s[i] != '$' || Escaped(s, i))
    ensures StepAt(s, i) == Char
  {
  }

  /** The step at an unescaped `$`, given the block decision and the closer found. */
  lemma StepAtDollar(s: string, i: nat, block: bool, close: int)
    requires i < |s| && s[i] == '$' && !Escaped(s, i)
    requires block == OpensBlock(s, i) && i + Width(block) <= |s|
    requires close == FindClose(s, i + Width(block), block)
    ensures close < 0 ==> StepAt(s, i) == Char
    ensures close >= 0 ==> i + Width(block) <= close && close + Width(block) <= |s|
    ensures close >= 0 && Trim(s[i + Width(block)..close]) == [] ==>
      StepAt(s, i) == Verbatim(close + Width(block))
    ensures close >= 0 && Trim(s[i + Width(block)..close]) != [] ==>
      StepAt(s, i) == Math(if block then BlockKind else InlineKind, Trim(s[i + Width(block)..close]), close + Width(block))
  {
    if close >= 0 {
      StepAtFound(s, i, block, close);
    }
  }

  /** At an unescaped `$` whose closer was found, the step is the one the closer decides. */
  lemma StepAtFound(s: string, i: nat, block: bool, close: nat)
    requires i < |s| && s[i] == '$' && !Escaped(s, i)
    requires block == OpensBlock(s, i) && i + Width(block) <= |s|
    requires close == FindClose(s, i + Width(block), block)
    ensures i + Width(block) <= close && close + Width(block) <= |s|
    ensures StepAt(s, i) == StepClosed(s, i, block, close)
  {
    assert block ==> close + 1 < |s|;
  }

  /** The segments `parseMathSegments` returns. */
  function Segments(s: string): seq<Segment> {
    ParseFrom(s, 0, [], [])
  }

  /** The body of the scanning loop for the character at `i`: whether it is
      kept as plain text, copied verbatim as a blank pair, or closes a math
      segment. */
  method ScanAt(input: string, i: nat) returns (step: Step)
    requires i < |input|
    ensures step == StepAt(input, i)
  {
    var ch := input[i];
    var escaped := false;
    if ch == '$' {
      escaped := IsEscaped(input, i);
    }
    if ch != '$' || escaped {
      StepAtPlain(input, i);
      return Char;
    }
    var block := false;
    if i + 1 < |input| && input[i + 1] == '$' {
      var nextEscaped := IsEscaped(input, i + 1);
      block := !nextEscaped;
    }
    assert block == OpensBlock(input, i);
    var w := Width(block);
    var closeIndex := FindClosingDelimiter(input, i + w, block);
    StepAtDollar(input, i, block, closeIndex);
    if closeIndex < 0 {
      return Char;
    }
    var formula := Trim(input[i + w..closeIndex]);
    if formula == [] {
      return Verbatim(closeIndex + w);
    }
    return Math(if block then BlockKind else InlineKind, formula, closeIndex + w);
  }

  method ParseMathSegments(input: string) returns (segments: seq<Segment>)
    ensures segments == Segments(input)
    ensures WellFormed(segments)
  {
    segments := [];
    var plain: seq<string> := [];
    var i := 0;
    while i < |input|
      invariant 0 <= i <= |input|
      invariant ParseFrom(input, i, plain, segments) == Segments(input)
      decreases |input| - i
    {
      var step := ScanAt(input, i);
      match step
      case Char =>
        ParseFromChar(input, i, plain, segments);
        plain := plain + [[input[i]]];
        i := i + 1;
      case Verbatim(end) =>
        ParseFromVerbatim(input, i, plain, segments, end);
        plain := plain + [input[i..end]];
        i := end;
      case Math(kind, formula, end) =>
        ParseFromMath(input, i, plain, segments, kind, formula, end);
        segments, plain := AppendPlain(segments, plain);
        segments := segments + [Segment(kind, formula)];
        i := end;
    }
    segments, plain := AppendPlain(segments, plain);
    SegmentsWellFormed(input);
  }

  // ---------------------------------------------------------------------
  // Shape of the result

  /** Math values are non-empty and trimmed, text values non-empty, and no
      two text segments are adjacent. */
  predicate WellFormed(segments: seq<Segment>) {
    && (forall k :: 0 <= k < |segments| ==> segments[k].value != [])
    && (forall k :: 0 <= k < |segments| && segments[k].kind != TextKind ==> IsTrimmed(segments[k].value))
    && (forall k :: 0 <= k < |segments| - 1 ==>
          !(segments[k].kind == TextKind && segments[k + 1].kind == TextKind))
  }

  predicate EndsOpen(segments: seq<Segment>) {
    segments == [] || segments[|segments| - 1].kind != TextKind
  }

  predicate ChunksNonEmpty(plain: seq<string>) {
    forall k :: 0 <= k < |plain| ==> plain[k] != []
  }

  lemma FlushedWellFormed(segments: seq<Segment>, plain: seq<string>)
    requires WellFormed(segments) && EndsOpen(segments) && ChunksNonEmpty(plain)
    ensures WellFormed(Flushed(segments, plain))
  {
    if plain != [] {
      assert Join(plain) != [] by {
        assert Join(plain) == Join(plain[..|plain| - 1]) + plain[|plain| - 1];
      }
    }
  }

  lemma StepWellFormed(segments: seq<Segment>, plain: seq<string>, kind: SegmentKind, formula: string)
    requires WellFormed(segments) && EndsOpen(segments) && ChunksNonEmpty(plain)
    requires kind != TextKind && formula != [] && IsTrimmed(formula)
    ensures WellFormed(Flushed(segments, plain) + [Segment(kind, formula)])
    ensures EndsOpen(Flushed(segments, plain) + [Segment(kind, formula)])
  {
    FlushedWellFormed(segments, plain);
  }

  lemma {:induction false} ParseFromWellFormed(s: string, i: nat, plain: seq<string>, segments: seq<Segment>)
    requires i <= |s|
    requires WellFormed(segments) && EndsOpen(segments) && ChunksNonEmpty(plain)
    ensures WellFormed(ParseFrom(s, i, plain, segments))
    decreases |s| - i, 1
  {
    if i == |s| {
      FlushedWellFormed(segments, plain);
    } else if StepAt(s, i).Math? {
      MathStepWellFormed(s, i, plain, segments);
    } else {
      PlainStepWellFormed(s, i, plain, segments);
    }
  }

  /** The induction step of `ParseFromWellFormed` at a plain character or a
      verbatim blank pair. */
  lemma {:induction false} PlainStepWellFormed(s: string, i: nat, plain: seq<string>, segments: seq<Segment>)
    requires i < |s| && !StepAt(s, i).Math?
    requires WellFormed(segments) && EndsOpen(segments) && ChunksNonEmpty(plain)
    ensures WellFormed(ParseFrom(s, i, plain, segments))
    decreases |s| - i, 0
  {
    var st := StepAt(s, i);
    if st.Char? {
      ParseFromChar(s, i, plain, segments);
      ParseFromWellFormed(s, i + 1, plain + [[s[i]]], segments);
    } else {
      ParseFromVerbatim(s, i, plain, segments, st.end);
      ParseFromWellFormed(s, st.end, plain + [s[i..st.end]], segments);
    }
  }

  /** The induction step of `ParseFromWellFormed` at a math segment. */
  lemma {:induction false} MathStepWellFormed(s: string, i: nat, plain: seq<string>, segments: seq<Segment>)
    requires i < |s| && StepAt(s, i).Math?
    requires WellFormed(segments) && EndsOpen(segments) && ChunksNonEmpty(plain)
    ensures WellFormed(ParseFrom(s, i, plain, segments))
    decreases |s| - i, 0
  {
    var st := StepAt(s, i);
    var next := Flushed(segments, plain) + [Segment(st.kind, st.formula)];
    ParseFromMath(s, i, plain, segments, st.kind, st.formula, st.end);
    StepWellFormed(segments, plain, st.kind, st.formula);
    ParseFromWellFormed(s, st.end, [], next);
  }

  /** Every math value is non-empty and trimmed; text runs are non-empty and
      never adjacent. */
  lemma SegmentsWellFormed(s: string)
    ensures WellFormed(Segments(s))
  {
    ParseFromWellFormed(s, 0, [], []);
  }

  // ---------------------------------------------------------------------
  // Text without delimiters

  /** Every dollar from index `i` on is escaped. */
  predicate NoOpenDollar(s: string, i: nat)
    requires i <= |s|
  {
    forall j :: i <= j < |s| && s[j] == '$' ==> Escaped(s, j)
  }

  lemma ParseFromChar(s: string, i: nat, plain: seq<string>, segments: seq<Segment>)
    requires i < |s| && StepAt(s, i) == Char
    ensures ParseFrom(s, i, plain, segments) == ParseFrom(s, i + 1, plain + [[s[i]]], segments)
  {
  }

  lemma ParseFromVerbatim(s: string, i: nat, plain: seq<string>, segments: seq<Segment>, end: nat)
    requires i < |s| && StepAt(s, i) == Verbatim(end)
    ensures ParseFrom(s, i, plain, segments) == ParseFrom(s, end, plain + [s[i..end]], segments)
  {
  }

  lemma ParseFromMath(s: string, i: nat, plain: seq<string>, segments: seq<Segment>,
                      kind: SegmentKind, formula: string, end: nat)
    requires i < |s| && StepAt(s, i) == Math(kind, formula, end)
    ensures ParseFrom(s, i, plain, segments)
         == ParseFrom(s, end, [], Flushed(segments, plain) + [Segment(kind, formula)])
  {
  }

  lemma {:induction false} PlainTail(s: string, i: nat, plain: seq<string>, segments: seq<Segment>)
    requires i <= |s| && NoOpenDollar(s, i)
    ensures plain == [] && i == |s| ==> ParseFrom(s, i, plain, segments) == segments
    ensures plain != [] || i < |s| ==>
      ParseFrom(s, i, plain, segments) == segments + [Segment(TextKind, Join(plain) + s[i..])]
    decreases |s| - i
  {
    if i < |s| {
      assert StepAt(s, i) == Char;
      ParseFromChar(s, i, plain, segments);
      PlainTail(s, i + 1, plain + [[s[i]]], segments);
      JoinAppend(plain, [s[i]]);
      assert Join(plain) + [s[i]] + s[i + 1..] == Join(plain) + s[i..];
    } else if plain != [] {
      assert s[i..] == [];
      assert Join(plain) + s[i..] == Join(plain);
    }
  }

  /** Text with no unescaped dollar is one text segment, or nothing when empty. */
  lemma NoDelimiterIsText(s: string)
    requires NoOpenDollar(s, 0)
    ensures Segments(s) == if s == [] then [] else [Segment(TextKind, s)]
  {
    PlainTail(s, 0, [], []);
    assert Join([]) + s[0..] == s;
  }

  // ---------------------------------------------------------------------
  // Delimiter pairs

  predicate NoDollar(body: string) {
    forall k :: 0 <= k < |body| ==> body[k] != '$'
  }

  predicate NoLineBreak(body: string) {
    forall k :: 0 <= k < |body| ==> !IsLineBreak(body[k])
  }

  /** An inline closer at `e` with no dollar and no line break before it is the one found. */
  lemma InlineCloseFound(s: string, from: nat, e: nat)
    requires from <= e < |s| && InlineCloseAt(s, e) && NoBreak(s, from, e)
    requires forall j :: from <= j < e ==> s[j] != '$'
    ensures FindClose(s, from, false) == e
  {
    FindCloseSpec(s, from, false);
  }

  /** A block closer at `e` with no dollar before it is the one found. */
  lemma BlockCloseFound(s: string, from: nat, e: nat)
    requires from <= e && BlockCloseAt(s, e)
    requires forall j :: from <= j < e ==> s[j] != '$'
    ensures FindClose(s, from, true) == e
  {
    FindCloseSpec(s, from, true);
  }

  /** The scanner's step at an unescaped `$body$` that no dollar follows. */
  lemma InlineStep(s: string, i: nat, body: string)
    requires i + |body| + 2 <= |s| && s[i..i + |body| + 2] == "$" + body + "$"
    requires !Escaped(s, i)
    requires body != [] && NoDollar(body) && NoLineBreak(body) && body[|body| - 1] != '\\'
    requires i + |body| + 2 == |s| || s[i + |body| + 2] != '$'
    ensures Trim(body) == [] ==> StepAt(s, i) == Verbatim(i + |body| + 2)
    ensures Trim(body) != [] ==> StepAt(s, i) == Math(InlineKind, Trim(body), i + |body| + 2)
  {
    var e := i + |body| + 1;
    InlinePair(s, i, body);
    InlineCloseFound(s, i + 1, e);
    StepAtDollar(s, i, false, e);
  }

  /** The characters of an unescaped `$body$` that no dollar follows: it
      opens no block, its body holds no dollar or line break, and its
      second dollar closes it. */
  lemma InlinePair(s: string, i: nat, body: string)
    requires i + |body| + 2 <= |s| && s[i..i + |body| + 2] == "$" + body + "$"
    requires body != [] && NoDollar(body) && NoLineBreak(body) && body[|body| - 1] != '\\'
    requires i + |body| + 2 == |s| || s[i + |body| + 2] != '$'
    ensures var e := i + |body| + 1;
      && s[i] == '$' && !OpensBlock(s, i) && s[i + 1..e] == body
      && InlineCloseAt(s, e) && NoBreak(s, i + 1, e)
      && forall j :: i + 1 <= j < e ==> s[j] != '$'
  {
    var e := i + |body| + 1;
    DollarPair(s, i, body);
    assert !OpensBlock(s, i) by {
      assert s[i + 1] == body[0];
    }
    assert InlineCloseAt(s, e) by {
      assert s[e - 1] == body[|body| - 1];
      assert SlashRun(s, e) == 0;
    }
    forall j | i + 1 <= j < e ensures s[j] != '$' && !IsLineBreak(s[j]) {
      assert s[j] == body[j - i - 1];
    }
  }

  /** Where `s` holds `$body$` at `i`, its characters are those of the pair. */
  lemma DollarPair(s: string, i: nat, body: string)
    requires i + |body| + 2 <= |s| && s[i..i + |body| + 2] == "$" + body + "$"
    ensures s[i] == '$' && s[i + |body| + 1] == '$'
    ensures forall k :: 0 <= k < |body| ==> s[i + 1 + k] == body[k]
    ensures s[i + 1..i + |body| + 1] == body
  {
    var e := i + |body| + 1;
    assert s[i] == s[i..i + |body| + 2][0];
    assert s[e] == s[i..i + |body| + 2][|body| + 1];
    forall k | 0 <= k < |body| ensures s[i + 1 + k] == body[k] {
      assert s[i + 1 + k] == s[i..i + |body| + 2][k + 1];
    }
  }

  /** The scanner's step at an unescaped `$$body$$`. */
  lemma BlockStep(s: string, i: nat, body: string)
    requires i + |body| + 4 <= |s| && s[i..i + |body| + 4] == "$$" + body + "$$"
    requires !Escaped(s, i)
    requires NoDollar(body) && (body == [] || body[|body| - 1] != '\\')
    ensures Trim(body) == [] ==> StepAt(s, i) == Verbatim(i + |body| + 4)
    ensures Trim(body) != [] ==> StepAt(s, i) == Math(BlockKind, Trim(body), i + |body| + 4)
  {
    var d := i + |body| + 2;
    assert s[i] == '$' && s[i + 1] == '$' && s[d] == '$' && s[d + 1] == '$' by {
      assert s[i] == s[i..i + |body| + 4][0];
      assert s[i + 1] == s[i..i + |body| + 4][1];
      assert s[d] == s[i..i + |body| + 4][|body| + 2];
      assert s[d + 1] == s[i..i + |body| + 4][|body| + 3];
    }
    assert forall k :: 0 <= k < |body| ==> s[i + 2 + k] == body[k] by {
      forall k | 0 <= k < |body| ensures s[i + 2 + k] == body[k] {
        assert s[i + 2 + k] == s[i..i + |body| + 4][k + 2];
      }
    }
    assert s[i + 2..d] == body;
    assert OpensBlock(s, i) by {
      assert SlashRun(s, i + 1) == 0;
    }
    assert BlockCloseAt(s, d) by {
      if body != [] {
        assert s[d - 1] == body[|body| - 1];
      }
      assert SlashRun(s, d) == 0;
    }
    forall j | i + 2 <= j < d ensures s[j] != '$' {
      assert s[j] == body[j - i - 2];
    }
    BlockCloseFound(s, i + 2, d);
  }

  // ---------------------------------------------------------------------
  // Turndown rules

  /** The `mathInline` rule's replacement for a formula attribute. */
  function TurndownInline(formula: string): (r: string)
    ensures formula == [] ==> r == []
    ensures formula != [] ==> |r| == |formula| + 2 && r[1..|r| - 1] == formula
  {
    if formula == [] then [] else "$" + formula + "$"
  }

  /** The `mathBlock` rule's replacement for a formula attribute. */
  function TurndownBlock(formula: string): (r: string)
    ensures formula == [] ==> r == []
    ensures formula != [] ==> |r| == |formula| + 10 && r[5..|r| - 5] == formula
  {
    if formula == [] then [] else "\n\n$$\n" + formula + "\n$$\n\n"
  }

  /** An inline formula emitted by Turndown is read back as one inline segment. */
  lemma InlineRoundTrip(f: string)
    requires !AllSpace(f) && NoDollar(f) && NoLineBreak(f) && f[|f| - 1] != '\\'
    ensures Segments(TurndownInline(f)) == [Segment(InlineKind, Trim(f))]
  {
    var s := TurndownInline(f);
    assert s[0..|f| + 2] == s;
    InlineStep(s, 0, f);
    ParseFromMath(s, 0, [], [], InlineKind, Trim(f), |s|);
  }

  lemma TurndownBlockShape(f: string)
    requires f != []
    ensures var s := TurndownBlock(f);
      && s[0] == '\n' && s[1] == '\n'
      && s[2..|f| + 8] == "$$" + ("\n" + f + "\n") + "$$"
      && s[|f| + 8..] == "\n\n"
  {
    var s := TurndownBlock(f);
    var a, b := "\n\n$$\n", "\n$$\n\n";
    assert s == (a + f) + b;
    assert s[|f| + 5..] == b;
    assert s[|f| + 8..] == b[3..];
    assert s[2..|f| + 8] == "$$" + ("\n" + f + "\n") + "$$";
  }

  /** A block formula emitted by Turndown is read back as a block segment
      between two blank-line text segments. */
  lemma BlockRoundTrip(f: string)
    requires !AllSpace(f) && NoDollar(f)
    ensures Segments(TurndownBlock(f))
         == [Segment(TextKind, "\n\n"), Segment(BlockKind, Trim(f)), Segment(TextKind, "\n\n")]
  {
    var s := TurndownBlock(f);
    var nl: string := "\n";
    var lead := [Segment(TextKind, "\n\n"), Segment(BlockKind, Trim(f))];
    TurndownBlockShape(f);
    BlockRoundTripOpening(s);
    BlockRoundTripFormula(f, s, lead);
    BlockRoundTripClosing(f, s, lead);
  }

  lemma BlockRoundTripOpening(s: string)
    requires |s| > 2 && s[0] == '\n' && s[1] == '\n'
    ensures Segments(s) == ParseFrom(s, 2, ["\n", "\n"], [])
  {
    var nl: string := "\n";
    assert StepAt(s, 0) == Char && StepAt(s, 1) == Char;
    ParseFromChar(s, 0, [], []);
    assert [] + [[s[0]]] == [nl];
    ParseFromChar(s, 1, [nl], []);
    assert [nl] + [[s[1]]] == [nl, nl];
  }

  lemma BlockRoundTripFormula(f: string, s: string, lead: seq<Segment>)
    requires !AllSpace(f) && NoDollar(f)
    requires |f| + 8 <= |s| && s[1] == '\n' && s[2..|f| + 8] == "$$" + ("\n" + f + "\n") + "$$"
    requires lead == [Segment(TextKind, "\n\n"), Segment(BlockKind, Trim(f))]
    ensures ParseFrom(s, 2, ["\n", "\n"], []) == ParseFrom(s, |f| + 8, [], lead)
  {
    var nl: string := "\n";
    var math := Segment(BlockKind, Trim(f));
    BlockFormulaStep(f, s);
    ParseFromMath(s, 2, [nl, nl], [], BlockKind, Trim(f), |f| + 8);
    FlushedNewlines(math);
  }

  /** The scanner's step at the opening `$$` of a Turndown block. */
  lemma BlockFormulaStep(f: string, s: string)
    requires !AllSpace(f) && NoDollar(f)
    requires |f| + 8 <= |s| && s[1] == '\n' && s[2..|f| + 8] == "$$" + ("\n" + f + "\n") + "$$"
    ensures StepAt(s, 2) == Math(BlockKind, Trim(f), |f| + 8)
  {
    var body := "\n" + f + "\n";
    PaddedFormula(f);
    assert SlashRun(s, 2) == 0;
    BlockStep(s, 2, body);
  }

  /** A formula between two line breaks: still free of dollars, trimmed to
      the formula's own trim, and ending in a line break. */
  lemma PaddedFormula(f: string)
    requires NoDollar(f)
    ensures var body := "\n" + f + "\n";
      && NoDollar(body) && Trim(body) == Trim(f) && body[|body| - 1] == '\n'
  {
    var body := "\n" + f + "\n";
    forall k | 0 <= k < |body| ensures body[k] != '$' {
      if 0 < k < |body| - 1 { assert body[k] == f[k - 1]; }
    }
    TrimPadded("\n", f, "\n");
  }

  lemma FlushedNewlines(x: Segment)
    ensures Flushed([], ["\n", "\n"]) + [x] == [Segment(TextKind, "\n\n"), x]
  {
    JoinPair("\n", "\n");
    assert "\n" + "\n" == "\n\n";
  }

  lemma BlockRoundTripClosing(f: string, s: string, lead: seq<Segment>)
    requires |s| == |f| + 10 && s[|f| + 8..] == "\n\n"
    ensures ParseFrom(s, |f| + 8, [], lead) == lead + [Segment(TextKind, "\n\n")]
  {
    var c := |f| + 8;
    assert NoOpenDollar(s, c) by {
      forall j | c <= j < |s| ensures s[j] != '$' {
        assert s[j] == s[c..][j - c];
      }
    }
    PlainTail(s, c, [], lead);
    assert Join([]) + s[c..] == "\n\n";
  }

  /** `$w$` with only (non-line-break) white space inside stays plain text. */
  lemma BlankInlinePairIsText(w: string)
    requires w != [] && AllSpace(w) && NoLineBreak(w)
    ensures Segments("$" + w + "$") == [Segment(TextKind, "$" + w + "$")]
  {
    var s := "$" + w + "$";
    assert NoDollar(w);
    assert s[0..|w| + 2] == s;
    InlineStep(s, 0, w);
    ParseFromVerbatim(s, 0, [], [], |s|);
    assert Join([s]) == s by { assert [s][..0] == []; }
  }

  /** `$$w$$` with only white space inside stays plain text. */
  lemma BlankBlockPairIsText(w: string)
    requires AllSpace(w)
    ensures Segments("$$" + w + "$$") == [Segment(TextKind, "$$" + w + "$$")]
  {
    var s := "$$" + w + "$$";
    assert NoDollar(w);
    assert s[0..|w| + 4] == s;
    BlockStep(s, 0, w);
    ParseFromVerbatim(s, 0, [], [], |s|);
    assert Join([s]) == s by { assert [s][..0] == []; }
  }

  // ---------------------------------------------------------------------
  // Skipped tags and plain-text extraction

  const SkippedTags: set<string> := {"pre", "code", "script", "style"}

  /** Elements whose text is never scanned for math, by case-insensitive tag name. */
  function IsSkippedTag(tagName: string): (r: bool)
    ensures r <==> exists t :: t in SkippedTags && EqualsIgnoringCase(tagName, t)
  {
    forall t | t in SkippedTags ensures Lower(tagName) == t <==> EqualsIgnoringCase(tagName, t) {
      LowerMatches(tagName, t);
    }
    var lowered := Lower(tagName);
    lowered == "pre" || lowered == "code" || lowered == "script" || lowered == "style"
  }

  lemma LowerUpperChar(c: char)
    ensures LowerChar(UpperChar(c)) == LowerChar(c)
  {
  }

  /** Tag names are matched regardless of case. */
  lemma SkippedTagIgnoresCase(tagName: string)
    ensures IsSkippedTag(Upper(tagName)) == IsSkippedTag(tagName)
  {
    assert Lower(Upper(tagName)) == Lower(tagName) by {
      forall k | 0 <= k < |tagName| ensures Lower(Upper(tagName))[k] == Lower(tagName)[k] {
        LowerUpperChar(tagName[k]);
      }
    }
  }

  /** No match of `<[^>]+>` is left: after a `<`, a `>` further on is only
      possible when the very next character is `>`. */
  predicate NoTag(s: string) {
    forall i, j :: 0 <= i && i + 1 < j < |s| && s[i] == '<' && s[j] == '>' ==> s[i + 1] == '>'
  }

  /** A character in front of a string without a tag leaves no tag, unless it
      is a `<` that opens one. */
  lemma NoTagCons(c: char, r: string)
    requires NoTag(r)
    requires c == '<' ==> r == [] || r[0] == '>' || '>' !in r
    ensures NoTag([c] + r)
  {
    var s := [c] + r;
    forall i, j | 0 <= i && i + 1 < j < |s| && s[i] == '<' && s[j] == '>'
      ensures s[i + 1] == '>'
    {
      assert s[j] == r[j - 1];
      if i > 0 {
        assert s[i] == r[i - 1] && s[i + 1] == r[i];
      } else {
        assert s[i + 1] == r[0];
      }
    }
  }

  /** `s.replace(/<[^>]+>/g, " ")`: every `<`, at least one non-`>`
      character and the next `>` become one space. */
  function StripTags(s: string): (r: string)
    ensures !('<' in s && '>' in s) ==> r == s
    ensures s != [] && s[0] != '<' ==> r != [] && r[0] == s[0]
    ensures NoTag(r)
    decreases |s|
  {
    if s == [] then []
    else
      var close := TagEnd(s, 1);
      if s[0] == '<' && close > 1 then
        var rest := StripTags(s[close + 1..]);
        NoTagCons(' ', rest);
        " " + rest
      else
        var rest := StripTags(s[1..]);
        assert s[0] == '<' && close == 0 ==> '>' !in s[1..];
        NoTagCons(s[0], rest);
        [s[0]] + rest
  }

  /** The first `>` at or after `from` is where `TagEnd` stops. */
  lemma TagEndFirst(s: string, from: nat, k: nat)
    requires from <= k < |s| && s[k] == '>'
    requires forall m :: from <= m < k ==> s[m] != '>'
    ensures TagEnd(s, from) == k
  {
  }

  /** A tag at the front becomes one space. */
  lemma StripLeadingTag(t: string, b: string)
    requires t != [] && '>' !in t
    ensures StripTags("<" + t + ">" + b) == " " + StripTags(b)
  {
    var s := "<" + t + ">" + b;
    assert forall m :: 1 <= m <= |t| ==> s[m] == t[m - 1];
    TagEndFirst(s, 1, |t| + 1);
    assert s[|t| + 2..] == b;
  }

  /** Text without `<` before a tag is kept, and the tag becomes one space. */
  lemma {:induction false} StripOneTag(a: string, t: string, b: string)
    requires '<' !in a && t != [] && '>' !in t
    ensures StripTags(a + "<" + t + ">" + b) == a + " " + StripTags(b)
    decreases |a|
  {
    if a == [] {
      assert a + "<" + t + ">" + b == "<" + t + ">" + b;
      StripLeadingTag(t, b);
    } else {
      var s := a + "<" + t + ">" + b;
      assert s[0] == a[0] && s[1..] == a[1..] + "<" + t + ">" + b;
      StripOneTag(a[1..], t, b);
    }
  }

  /** Index of the first `>` at or after `from`, or 0 when there is none. */
  function TagEnd(s: string, from: nat): (r: nat)
    requires from <= |s|
    ensures r == 0 || (from <= r < |s| && s[r] == '>')
    ensures r != 0 ==> forall k :: from <= k < r ==> s[k] != '>'
    ensures r == 0 && from > 0 ==> forall k :: from <= k < |s| ==> s[k] != '>'
    decreases |s| - from
  {
    if from == |s| then 0
    else if s[from] == '>' then from
    else TagEnd(s, from + 1)
  }

  /** `s.replace(/\s+/g, " ")`: every run of white space becomes one space. */
  function CollapseSpace(s: string): (r: string)
    ensures NoDoubleSpace(r)
    ensures r != [] && IsSpace(r[0]) ==> s != [] && IsSpace(s[0])
    decreases |s|
  {
    if s == [] then []
    else if IsSpace(s[0]) then
      " " + CollapseSpace(TrimStart(s))
    else [s[0]] + CollapseSpace(s[1..])
  }

  /** Replacing every run of white space by one space is blanking the white
      space, splitting at the spaces, dropping the empty pieces between two
      spaces and joining the rest with one space. */
  lemma {:induction false} CollapseSpaceSplit(s: string)
    ensures Split(CollapseSpace(s), ' ') == DropInnerEmpties(Split(Blanked(s), ' '))
    ensures CollapseSpace(s) == Text.Join(DropInnerEmpties(Split(Blanked(s), ' ')), " ")
    decreases |s|
  {
    if s != [] {
      if IsSpace(s[0]) {
        var rest := TrimStart(s);
        CollapseSpaceSplit(rest);
        var c := CollapseSpace(rest);
        assert CollapseSpace(s) == " " + c;
        SpaceRunStep(s, c);
      } else {
        CollapseSpaceSplit(s[1..]);
        var c := CollapseSpace(s[1..]);
        assert CollapseSpace(s) == [s[0]] + c;
        NonSpaceStep(s, c);
      }
    }
    JoinSplit(CollapseSpace(s), ' ');
  }

  /** A run of white space at the front leaves one empty first piece. */
  lemma SpaceRunStep(s: string, c: string)
    requires s != [] && IsSpace(s[0])
    requires Split(c, ' ') == DropInnerEmpties(Split(Blanked(TrimStart(s)), ' '))
    ensures Split(" " + c, ' ') == DropInnerEmpties(Split(Blanked(s), ' '))
  {
    var r := " " + c;
    assert r[0] == ' ' && r[1..] == c;
    assert Split(r, ' ') == [""] + Split(c, ' ');
    LeadingBlanks(s);
    var rest := TrimStart(s);
    var p := Split(Blanked(rest), ' ');
    if rest == [] {
      assert p == [""];
    } else {
      var b := Blanked(rest);
      assert b[0] == rest[0] && b[1..] == Blanked(rest[1..]);
      assert p[0] == [rest[0]] + Split(b[1..], ' ')[0];
    }
    DropLeadingEmpty(p);
  }

  /** The white space that opens `s` counts as one separator. */
  lemma {:induction false} LeadingBlanks(s: string)
    requires s != [] && IsSpace(s[0])
    ensures DropInnerEmpties(Split(Blanked(s), ' ')) == DropInnerEmpties([""] + Split(Blanked(TrimStart(s)), ' '))
    decreases |s|
  {
    var b := Blanked(s);
    assert b[0] == ' ' && b[1..] == Blanked(s[1..]);
    assert Split(b, ' ') == [""] + Split(Blanked(s[1..]), ' ');
    if |s| >= 2 && IsSpace(s[1]) {
      LeadingBlanks(s[1..]);
      var b1 := Blanked(s[1..]);
      assert s[1..][1..] == s[2..];
      assert b1[0] == ' ' && b1[1..] == Blanked(s[2..]);
      var p := Split(Blanked(s[2..]), ' ');
      assert Split(b1, ' ') == [""] + p;
      assert [""] + ([""] + p) == [""] + [""] + p;
      DropRepeatedEmpty(p);
    }
  }

  /** A character other than white space joins the first piece. */
  lemma NonSpaceStep(s: string, c: string)
    requires s != [] && !IsSpace(s[0])
    requires Split(c, ' ') == DropInnerEmpties(Split(Blanked(s[1..]), ' '))
    ensures Split([s[0]] + c, ' ') == DropInnerEmpties(Split(Blanked(s), ' '))
  {
    var r := [s[0]] + c;
    assert r[1..] == c;
    var b := Blanked(s);
    assert b[0] == s[0] && b[1..] == Blanked(s[1..]);
    var p := Split(Blanked(s[1..]), ' ');
    var q := Split(c, ' ');
    assert Split(r, ' ') == [[s[0]] + q[0]] + q[1..];
    assert Split(b, ' ') == [[s[0]] + p[0]] + p[1..];
    DropKeepsHead([s[0]] + p[0], p);
  }

  /** Collapsing and then trimming leaves the words joined by single spaces. */
  lemma PlainTextWords(x: string)
    ensures Trim(CollapseSpace(x)) == Text.Join(SpaceWords(x), " ")
  {
    var p := Split(Blanked(x), ' ');
    var q := DropInnerEmpties(p);
    CollapseSpaceSplit(x);
    assert CollapseSpace(x) == Text.Join(q, " ");
    SplitAtSpaceNoSpace(Blanked(x));
    DropKeepsNoSpace(p);
    TrimJoin(q);
    NonEmptyOfDrop(p);
  }

  /** The server branch of `extractPlainTextFromHtml`: the words of the
      trimmed markup, tags counted as white space, joined by single spaces. */
  function ExtractPlainTextOnServer(html: string): (r: string)
    ensures AllSpace(html) ==> r == []
    ensures IsTrimmed(r) && NoDoubleSpace(r)
    ensures r == Text.Join(SpaceWords(StripTags(Trim(html))), " ")
  {
    var trimmed := Trim(html);
    if trimmed == [] then
      assert Split(Blanked([]), ' ') == [""];
      []
    else
      var collapsed := CollapseSpace(StripTags(trimmed));
      TrimNoDoubleSpace(collapsed);
      PlainTextWords(StripTags(trimmed));
      Trim(collapsed)
  }
}
