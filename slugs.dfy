/** URL slugs and section keys: a string is lower-cased, every run of
    characters outside `[a-z0-9]` becomes one `-`, and a dash at either end
    is dropped. */
module Slugs {
  import opened Text

  predicate IsSlugChar(c: char) { IsAsciiLower(c) || IsAsciiDigit(c) }

  /** Every character is in `[a-z0-9-]`. */
  predicate IsSlugText(s: string) {
    forall k :: 0 <= k < |s| ==> IsSlugChar(s[k]) || s[k] == '-'
  }

  predicate NoDoubleDash(s: string) {
    forall k :: 0 <= k < |s| - 1 ==> !(s[k] == '-' && s[k + 1] == '-')
  }

  predicate NoEdgeDash(s: string) {
    s == [] || (s[0] != '-' && s[|s| - 1] != '-')
  }

  /** A well-formed slug: `[a-z0-9]` words joined by single dashes. */
  predicate IsSlug(s: string) {
    IsSlugText(s) && NoDoubleDash(s) && NoEdgeDash(s)
  }

  /** Drops the characters outside `[a-z0-9]` that open `s`. */
  function SkipSeparators(s: string): (r: string)
    ensures |r| <= |s|
    ensures r != [] ==> IsSlugChar(r[0]) && r[|r| - 1] == s[|s| - 1]
    ensures r == [] ==> forall k :: 0 <= k < |s| ==> !IsSlugChar(s[k])
    ensures s != [] && !IsSlugChar(s[0]) ==> |r| < |s|
    decreases |s|
  {
    if s != [] && !IsSlugChar(s[0]) then SkipSeparators(s[1..]) else s
  }

  /** `s.replace(/[^a-z0-9]+/g, "-")`: each maximal run of characters outside
      `[a-z0-9]` becomes a single dash. */
  function CollapseSeparators(s: string): (r: string)
    ensures r == [] <==> s == []
    ensures r != [] ==> (r[0] == '-' <==> !IsSlugChar(s[0]))
    ensures r != [] ==> (r[|r| - 1] == '-' <==> !IsSlugChar(s[|s| - 1]))
    decreases |s|
  {
    if s == [] then []
    else if IsSlugChar(s[0]) then [s[0]] + CollapseSeparators(s[1..])
    else "-" + CollapseSeparators(SkipSeparators(s))
  }

  /** Collapsing leaves only `[a-z0-9-]`, with no two dashes in a row. */
  lemma {:induction false} CollapseShape(s: string)
    ensures IsSlugText(CollapseSeparators(s)) && NoDoubleDash(CollapseSeparators(s))
    decreases |s|
  {
    if s != [] {
      var tail := if IsSlugChar(s[0]) then s[1..] else SkipSeparators(s);
      var head := if IsSlugChar(s[0]) then [s[0]] else "-";
      CollapseShape(tail);
      var r, t := CollapseSeparators(s), CollapseSeparators(tail);
      assert r == head + t;
      assert t != [] && head == "-" ==> t[0] != '-';
      forall k | 0 <= k < |r| ensures IsSlugChar(r[k]) || r[k] == '-' {
        if k > 0 { assert r[k] == t[k - 1]; }
      }
      forall k | 0 <= k < |r| - 1 ensures !(r[k] == '-' && r[k + 1] == '-') {
        if k > 0 { assert r[k] == t[k - 1] && r[k + 1] == t[k]; }
      }
    }
  }

  /** `s.replace(/(^-|-$)/g, "")`: one dash is removed from each end. */
  function StripEdgeDashes(s: string): (r: string)
    ensures IsSlugText(s) ==> IsSlugText(r)
    ensures NoDoubleDash(s) ==> NoDoubleDash(r) && NoEdgeDash(r)
    ensures NoEdgeDash(s) ==> r == s
  {
    var t := if s != [] && s[0] == '-' then s[1..] else s;
    assert NoDoubleDash(s) ==> NoDoubleDash(t) by {
      if NoDoubleDash(s) && t != s {
        forall k | 0 <= k < |t| - 1 ensures !(t[k] == '-' && t[k + 1] == '-') {
          assert t[k] == s[k + 1] && t[k + 1] == s[k + 2];
        }
      }
    }
    if t != [] && t[|t| - 1] == '-' then t[..|t| - 1] else t
  }

  /** `generateSlug` of both post editors: the words of the lower-cased
      title joined by single dashes. */
  function GenerateSlug(title: string): (r: string)
    ensures IsSlug(r)
    ensures r == Join(Words(Lower(title)), "-")
  {
    CollapseShape(Lower(title));
    SlugIsJoinedWords(Lower(title));
    StripEdgeDashes(CollapseSeparators(Lower(title)))
  }

  // ---------------------------------------------------------------------
  // The slug as the words of the title

  /** The longest prefix of `s` made of `[a-z0-9]`. */
  function LeadingWord(s: string): (w: string)
    ensures w <= s
    ensures forall k :: 0 <= k < |w| ==> IsSlugChar(w[k])
    ensures |w| < |s| ==> !IsSlugChar(s[|w|])
    ensures s != [] && IsSlugChar(s[0]) ==> w != []
    decreases |s|
  {
    if s != [] && IsSlugChar(s[0]) then [s[0]] + LeadingWord(s[1..]) else []
  }

  /** The maximal runs of `[a-z0-9]` in `s`, in order. */
  function Words(s: string): (r: seq<string>)
    ensures forall i :: 0 <= i < |r| ==> r[i] != [] && forall k :: 0 <= k < |r[i]| ==> IsSlugChar(r[i][k])
    decreases |s|
  {
    if s == [] then []
    else if !IsSlugChar(s[0]) then Words(s[1..])
    else
      var w := LeadingWord(s);
      [w] + Words(s[|w|..])
  }

  /** Leading separators contribute no word. */
  lemma {:induction false} WordsSkip(s: string)
    ensures Words(SkipSeparators(s)) == Words(s)
    decreases |s|
  {
    if s != [] && !IsSlugChar(s[0]) {
      WordsSkip(s[1..]);
    }
  }

  /** A run of `[a-z0-9]` passes through collapsing unchanged. */
  lemma {:induction false} CollapseWord(w: string, rest: string)
    requires forall k :: 0 <= k < |w| ==> IsSlugChar(w[k])
    ensures CollapseSeparators(w + rest) == w + CollapseSeparators(rest)
    decreases |w|
  {
    if w == [] {
      assert w + rest == rest;
    } else {
      var t := w + rest;
      assert t[0] == w[0];
      assert t[1..] == w[1..] + rest;
      CollapseStep(t);
      CollapseWord(w[1..], rest);
      assert [w[0]] + (w[1..] + CollapseSeparators(rest)) == w + CollapseSeparators(rest);
    }
  }

  /** One step of collapsing at a word character. */
  lemma CollapseStep(t: string)
    requires t != [] && IsSlugChar(t[0])
    ensures CollapseSeparators(t) == [t[0]] + CollapseSeparators(t[1..])
  {
  }

  /** `SkipSeparators` drops a prefix of separators: what is left is a
      suffix of the text. */
  lemma {:induction false} SkipIsSuffix(s: string)
    ensures SkipSeparators(s) == s[|s| - |SkipSeparators(s)|..]
    ensures forall k :: 0 <= k < |s| - |SkipSeparators(s)| ==> !IsSlugChar(s[k])
    decreases |s|
  {
    if s != [] && !IsSlugChar(s[0]) {
      SkipIsSuffix(s[1..]);
      var r := SkipSeparators(s);
      assert s[1..][|s| - 1 - |r|..] == s[|s| - |r|..];
      forall k | 0 <= k < |s| - |r| ensures !IsSlugChar(s[k]) {
        if k > 0 { assert s[k] == s[1..][k - 1]; }
      }
    }
  }

  /** A dash when `s` ends in a separator, else nothing. */
  function TrailingDash(s: string): string {
    if s != [] && !IsSlugChar(s[|s| - 1]) then "-" else ""
  }

  /** What a run of separators at the front contributes: one dash, no word,
      and the trailing dash of the rest. */
  lemma SeparatorRun(rest: string)
    requires rest != [] && !IsSlugChar(rest[0])
    ensures var k := SkipSeparators(rest);
      && CollapseSeparators(rest) == "-" + CollapseSeparators(k)
      && Words(rest) == Words(k)
      && (k == [] ==> TrailingDash(rest) == "-")
      && (k != [] ==> IsSlugChar(k[0]) && TrailingDash(k) == TrailingDash(rest))
  {
    var k := SkipSeparators(rest);
    assert Words(rest) == Words(rest[1..]);
    WordsSkip(rest[1..]);
    assert SkipSeparators(rest) == SkipSeparators(rest[1..]);
  }

  lemma WordsAtWord(s: string)
    requires s != [] && IsSlugChar(s[0])
    ensures Words(s) == [LeadingWord(s)] + Words(s[|LeadingWord(s)|..])
  {
  }

  lemma JoinCons(w: string, ws: seq<string>)
    requires ws != []
    ensures Join([w] + ws, "-") == w + "-" + Join(ws, "-")
  {
    assert ([w] + ws)[1..] == ws;
  }

  /** From a word onwards, collapsing gives the words joined by dashes and
      one more dash when the text ends in separators. */
  lemma {:induction false} CollapseIsJoinedWords(s: string)
    requires s != [] && IsSlugChar(s[0])
    ensures CollapseSeparators(s) == Join(Words(s), "-") + TrailingDash(s)
    ensures Words(s) != []
    decreases |s|
  {
    var w := LeadingWord(s);
    var rest := s[|w|..];
    WordThenRest(s);
    if rest == [] {
      WordOnly(s);
    } else {
      var k := SkipSeparators(rest);
      SeparatorRun(rest);
      if k == [] {
        WordThenSeparators(w, rest, Words(s), CollapseSeparators(s));
      } else {
        CollapseIsJoinedWords(k);
        WordThenMore(w, Words(k), CollapseSeparators(k), TrailingDash(k));
      }
    }
  }

  /** The facts about the word that opens `s` and the text after it. */
  lemma WordThenRest(s: string)
    requires s != [] && IsSlugChar(s[0])
    ensures var w := LeadingWord(s); var rest := s[|w|..];
      && w != []
      && CollapseSeparators(s) == w + CollapseSeparators(rest)
      && Words(s) == [w] + Words(rest)
      && (rest != [] ==> !IsSlugChar(rest[0]) && TrailingDash(rest) == TrailingDash(s))
  {
    CollapseAtWord(s);
    WordsAtWord(s);
    var w := LeadingWord(s);
    var rest := s[|w|..];
    if rest != [] {
      assert rest[|rest| - 1] == s[|s| - 1];
    }
  }

  lemma CollapseAtWord(s: string)
    requires s != [] && IsSlugChar(s[0])
    ensures CollapseSeparators(s) == LeadingWord(s) + CollapseSeparators(s[|LeadingWord(s)|..])
  {
    var w := LeadingWord(s);
    var rest := s[|w|..];
    assert s == w + rest;
    CollapseWord(w, rest);
  }

  lemma WordOnly(s: string)
    requires s != [] && IsSlugChar(s[0]) && |LeadingWord(s)| == |s|
    requires CollapseSeparators(s) == LeadingWord(s) + CollapseSeparators(s[|LeadingWord(s)|..])
    requires Words(s) == [LeadingWord(s)] + Words(s[|LeadingWord(s)|..])
    ensures CollapseSeparators(s) == Join(Words(s), "-") + TrailingDash(s)
    ensures Words(s) != []
  {
    var w := LeadingWord(s);
    assert s[|w|..] == [];
    assert w == s;
    assert Words(s) == [w];
  }

  lemma WordThenSeparators(w: string, rest: string, words: seq<string>, collapsed: string)
    requires w != [] && rest != []
    requires collapsed == w + CollapseSeparators(rest) && words == [w] + Words(rest)
    requires CollapseSeparators(rest) == "-" + CollapseSeparators([]) && Words(rest) == Words([])
    ensures collapsed == Join(words, "-") + "-"
    ensures words != []
  {
    assert words == [w];
  }

  lemma WordThenMore(w: string, words: seq<string>, collapsed: string, trail: string)
    requires words != []
    ensures w + ("-" + (Join(words, "-") + trail)) == Join([w] + words, "-") + trail
  {
    JoinCons(w, words);
  }

  /** Stripping the edge dashes of a collapsed text leaves its words joined
      by dashes. */
  lemma SlugIsJoinedWords(s: string)
    ensures StripEdgeDashes(CollapseSeparators(s)) == Join(Words(s), "-")
  {
    if s != [] {
      if IsSlugChar(s[0]) {
        SlugFromWord(s);
      } else {
        SlugFromSeparator(s);
      }
    }
  }

  /** `SlugIsJoinedWords` for a text that opens with a word. */
  lemma SlugFromWord(s: string)
    requires s != [] && IsSlugChar(s[0])
    ensures StripEdgeDashes(CollapseSeparators(s)) == Join(Words(s), "-")
  {
    CollapseIsJoinedWords(s);
    StripJoined("", Words(s), TrailingDash(s), CollapseSeparators(s));
  }

  /** `SlugIsJoinedWords` for a text that opens with a separator. */
  lemma SlugFromSeparator(s: string)
    requires s != [] && !IsSlugChar(s[0])
    ensures StripEdgeDashes(CollapseSeparators(s)) == Join(Words(s), "-")
  {
    var k := SkipSeparators(s);
    SeparatorRun(s);
    if k == [] {
      assert CollapseSeparators(s) == "-";
    } else {
      CollapseIsJoinedWords(k);
      StripJoined("-", Words(k), TrailingDash(k), CollapseSeparators(s));
    }
  }

  /** Words joined by dashes, with at most one dash on each side, lose
      exactly those dashes. */
  lemma StripJoined(lead: string, ws: seq<string>, trail: string, c: string)
    requires lead == "" || lead == "-"
    requires trail == "" || trail == "-"
    requires ws != []
    requires forall i :: 0 <= i < |ws| ==> ws[i] != [] && forall k :: 0 <= k < |ws[i]| ==> IsSlugChar(ws[i][k])
    requires c == lead + (Join(ws, "-") + trail)
    ensures StripEdgeDashes(c) == Join(ws, "-")
  {
    var j := Join(ws, "-");
    JoinedWordsEnds(ws);
    assert j[0] != '-' && j[|j| - 1] != '-';
    StripAround(lead, j, trail);
  }

  /** At most one dash on each side of a word-edged text is stripped. */
  lemma StripAround(lead: string, j: string, trail: string)
    requires lead == "" || lead == "-"
    requires trail == "" || trail == "-"
    requires j != [] && j[0] != '-' && j[|j| - 1] != '-'
    ensures StripEdgeDashes(lead + (j + trail)) == j
  {
    var x := lead + (j + trail);
    var t := j + trail;
    if lead == "-" {
      assert x[0] == '-' && x[1..] == t;
    } else {
      assert x == t && x[0] == j[0];
    }
    if trail == "-" {
      assert t[|t| - 1] == '-' && t[..|t| - 1] == j;
    } else {
      assert t == j;
    }
  }

  /** Words joined by dashes start and end with a word character. */
  lemma {:induction false} JoinedWordsEnds(ws: seq<string>)
    requires ws != []
    requires forall i :: 0 <= i < |ws| ==> ws[i] != [] && forall k :: 0 <= k < |ws[i]| ==> IsSlugChar(ws[i][k])
    ensures var j := Join(ws, "-"); j != [] && IsSlugChar(j[0]) && IsSlugChar(j[|j| - 1])
    decreases |ws|
  {
    if |ws| > 1 {
      JoinedWordsEnds(ws[1..]);
      var t := Join(ws[1..], "-");
      assert Join(ws, "-") == ws[0] + "-" + t;
      assert (ws[0] + "-" + t)[0] == ws[0][0];
    }
  }

  lemma LowerOfSlugText(s: string)
    requires IsSlugText(s)
    ensures Lower(s) == s
  {
  }

  /** A slug has no run of separators longer than one dash, so collapsing
      leaves it alone. */
  lemma {:induction false} CollapseOfSlugText(s: string)
    requires IsSlugText(s) && NoDoubleDash(s)
    ensures CollapseSeparators(s) == s
    decreases |s|
  {
    if s != [] {
      var rest := s[1..];
      assert IsSlugText(rest) && NoDoubleDash(rest) by {
        assert forall k :: 0 <= k < |rest| ==> rest[k] == s[k + 1];
      }
      CollapseOfSlugText(rest);
      if !IsSlugChar(s[0]) {
        assert rest == [] || IsSlugChar(rest[0]);
        assert SkipSeparators(s) == rest;
      }
    }
  }

  /** A slug is its own slug. */
  lemma SlugIsFixed(s: string)
    requires IsSlug(s)
    ensures GenerateSlug(s) == s
  {
    LowerOfSlugText(s);
    CollapseOfSlugText(s);
  }

  /** `generateSlug` is idempotent. */
  lemma GenerateSlugIdempotent(title: string)
    ensures GenerateSlug(GenerateSlug(title)) == GenerateSlug(title)
  {
    SlugIsFixed(GenerateSlug(title));
  }

  // ---------------------------------------------------------------------
  // White space around a title does not change its slug.

  lemma LowerCons(c: char, s: string)
    ensures Lower([c] + s) == [LowerChar(c)] + Lower(s)
  {
  }

  lemma LowerSnoc(s: string, c: char)
    ensures Lower(s + [c]) == Lower(s) + [LowerChar(c)]
  {
  }

  /** Removing one dash at the front is absorbed by the edge-dash stripping. */
  lemma StripAfterDash(c: string)
    requires c == [] || c[0] != '-'
    ensures StripEdgeDashes("-" + c) == StripEdgeDashes(c)
  {
    assert ("-" + c)[1..] == c;
  }

  lemma StripBeforeDash(c: string)
    requires c == [] || c[|c| - 1] != '-'
    ensures StripEdgeDashes(c + "-") == StripEdgeDashes(c)
  {
    if c != [] {
      var x := c + "-";
      var t := if c[0] == '-' then c[1..] else c;
      assert x[0] == c[0];
      if c[0] == '-' {
        assert x[1..] == t + "-";
      }
      assert (t + "-")[|t|] == '-' && (t + "-")[..|t|] == t;
      assert t == [] || t[|t| - 1] == c[|c| - 1];
    }
  }

  /** A separator in front of a string is merged into its first run. */
  lemma CollapseCons(c: char, u: string)
    requires !IsSlugChar(c)
    ensures var r := CollapseSeparators(u);
      CollapseSeparators([c] + u) == if u != [] && !IsSlugChar(u[0]) then r else "-" + r
  {
    assert ([c] + u)[1..] == u;
    assert SkipSeparators([c] + u) == SkipSeparators(u);
    if u != [] && !IsSlugChar(u[0]) {
      assert CollapseSeparators(u) == "-" + CollapseSeparators(SkipSeparators(u));
    } else {
      assert SkipSeparators(u) == u;
    }
  }

  lemma {:induction false} SkipSnoc(u: string, c: char)
    requires !IsSlugChar(c)
    ensures SkipSeparators(u + [c]) == if SkipSeparators(u) == [] then [] else SkipSeparators(u) + [c]
    decreases |u|
  {
    if u == [] {
      assert [] + [c] == [c];
      assert SkipSeparators([c]) == SkipSeparators([c][1..]);
    } else if !IsSlugChar(u[0]) {
      assert (u + [c])[1..] == u[1..] + [c];
      SkipSnoc(u[1..], c);
    }
  }

  /** A separator behind a string is merged into its last run. */
  lemma {:induction false} CollapseSnoc(u: string, c: char)
    requires !IsSlugChar(c)
    ensures CollapseSeparators(u + [c]) == SnocResult(u)
    decreases |u|
  {
    if u == [] {
      assert u + [c] == [c];
      assert SkipSeparators([c]) == [];
    } else if IsSlugChar(u[0]) {
      CollapseSnoc(u[1..], c);
      CollapseSnocWord(u, c);
    } else {
      SkipSnoc(u, c);
      var k := SkipSeparators(u);
      if k != [] {
        CollapseSnoc(k, c);
      }
      CollapseSnocSeparator(u, c);
    }
  }

  /** What `CollapseSnoc` promises for `u` followed by a separator. */
  function SnocResult(u: string): string {
    var r := CollapseSeparators(u);
    if u != [] && !IsSlugChar(u[|u| - 1]) then r else r + "-"
  }

  lemma CollapseSnocWord(u: string, c: char)
    requires !IsSlugChar(c) && u != [] && IsSlugChar(u[0])
    requires CollapseSeparators(u[1..] + [c]) == SnocResult(u[1..])
    ensures CollapseSeparators(u + [c]) == SnocResult(u)
  {
    var w, v := [u[0]], u[1..];
    assert (u + [c])[1..] == v + [c];
    assert CollapseSeparators(u + [c]) == w + CollapseSeparators(v + [c]);
    assert CollapseSeparators(u) == w + CollapseSeparators(v);
    assert v != [] ==> v[|v| - 1] == u[|u| - 1];
    PrependSnoc(w, CollapseSeparators(v), v != [] && !IsSlugChar(v[|v| - 1]));
  }

  lemma PrependSnoc(w: string, r: string, keep: bool)
    ensures w + (if keep then r else r + "-") == if keep then w + r else (w + r) + "-"
  {
  }

  lemma CollapseSnocSeparator(u: string, c: char)
    requires !IsSlugChar(c) && u != [] && !IsSlugChar(u[0])
    requires SkipSeparators(u + [c]) == if SkipSeparators(u) == [] then [] else SkipSeparators(u) + [c]
    requires SkipSeparators(u) != [] ==>
      CollapseSeparators(SkipSeparators(u) + [c]) == SnocResult(SkipSeparators(u))
    ensures CollapseSeparators(u + [c]) == SnocResult(u)
  {
    var k := SkipSeparators(u);
    assert CollapseSeparators(u + [c]) == "-" + CollapseSeparators(SkipSeparators(u + [c]));
    assert CollapseSeparators(u) == "-" + CollapseSeparators(k);
    if k == [] {
      assert !IsSlugChar(u[|u| - 1]);
    } else {
      assert k[|k| - 1] == u[|u| - 1];
    }
  }

  /** A white-space character at the front of a title does not change its slug. */
  lemma SlugDropsFirstSpace(s: string)
    requires s != [] && IsSpace(s[0])
    ensures GenerateSlug(s[1..]) == GenerateSlug(s)
  {
    var u := Lower(s[1..]);
    assert s == [s[0]] + s[1..];
    LowerCons(s[0], s[1..]);
    assert LowerChar(s[0]) == s[0];
    CollapseCons(s[0], u);
    if !(u != [] && !IsSlugChar(u[0])) {
      StripAfterDash(CollapseSeparators(u));
    }
  }

  /** A white-space character at the end of a title does not change its slug. */
  lemma SlugDropsLastSpace(s: string)
    requires s != [] && IsSpace(s[|s| - 1])
    ensures GenerateSlug(s[..|s| - 1]) == GenerateSlug(s)
  {
    var p := s[..|s| - 1];
    var c := s[|s| - 1];
    var u := Lower(p);
    assert s == p + [c];
    LowerSnoc(p, c);
    assert LowerChar(c) == c;
    CollapseSnoc(u, c);
    if !(u != [] && !IsSlugChar(u[|u| - 1])) {
      StripBeforeDash(CollapseSeparators(u));
    }
  }

  lemma {:induction false} SlugOfTrimStart(s: string)
    ensures GenerateSlug(TrimStart(s)) == GenerateSlug(s)
    decreases |s|
  {
    if s != [] && IsSpace(s[0]) {
      SlugOfTrimStart(s[1..]);
      SlugDropsFirstSpace(s);
    }
  }

  lemma {:induction false} SlugOfTrimEnd(s: string)
    ensures GenerateSlug(TrimEnd(s)) == GenerateSlug(s)
    decreases |s|
  {
    if s != [] && IsSpace(s[|s| - 1]) {
      SlugOfTrimEnd(s[..|s| - 1]);
      SlugDropsLastSpace(s);
    }
  }

  /** Trimming a title first does not change its slug. */
  lemma SlugOfTrim(s: string)
    ensures GenerateSlug(Trim(s)) == GenerateSlug(s)
  {
    SlugOfTrimStart(s);
    SlugOfTrimEnd(TrimStart(s));
  }
}
