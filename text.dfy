/** String helpers shared by the whole model. JavaScript strings are modelled
    as `seq<char>`; `trim` and the regular-expression class `\s` use the
    ECMAScript white-space and line-terminator code points; `toLowerCase` and
    `toUpperCase` are modelled on ASCII letters only. */
module Text {

  datatype Option<+T> = None | Some(value: T) {
    /** `x ?? d` and `x || d` on an optional value. */
    function GetOr(default: T): T {
      match this
      case Some(v) => v
      case None => default
    }
  }

  /** The code points JavaScript's `trim` removes and `\s` matches. */
  predicate IsSpace(c: char) {
    || c == ' ' || c == '\t' || c == '\n' || c == '\U{000B}' || c == '\U{000C}' || c == '\r'
    || c == '\U{00A0}' || c == '\U{1680}' || ('\U{2000}' <= c <= '\U{200A}')
    || c == '\U{2028}' || c == '\U{2029}' || c == '\U{202F}' || c == '\U{205F}'
    || c == '\U{3000}' || c == '\U{FEFF}'
  }

  predicate AllSpace(s: string) {
    forall k :: 0 <= k < |s| ==> IsSpace(s[k])
  }

  /** Neither end of `s` is white space. */
  predicate IsTrimmed(s: string) {
    s == [] || (!IsSpace(s[0]) && !IsSpace(s[|s| - 1]))
  }

  /** No two adjacent characters of `s` are both white space. */
  predicate NoDoubleSpace(s: string) {
    forall k :: 0 <= k < |s| - 1 ==> !(IsSpace(s[k]) && IsSpace(s[k + 1]))
  }

  lemma AllSpaceTail(s: string)
    requires s != []
    ensures AllSpace(s) <==> IsSpace(s[0]) && AllSpace(s[1..])
  {
    assert forall k :: 0 < k < |s| ==> s[1..][k - 1] == s[k];
  }

  /** `String.prototype.trimStart`: drops the white space that opens `s`. */
  function TrimStart(s: string): (r: string)
    ensures |r| <= |s|
    ensures r != [] ==> !IsSpace(r[0])
    ensures s != [] && IsSpace(s[0]) ==> |r| < |s|
    decreases |s|
  {
    if s != [] && IsSpace(s[0]) then TrimStart(s[1..]) else s
  }

  /** `String.prototype.trimEnd`: drops the white space that closes `s`. */
  function TrimEnd(s: string): (r: string)
    ensures |r| <= |s|
    ensures r != [] ==> !IsSpace(r[|r| - 1])
    ensures s != [] && !IsSpace(s[0]) ==> r != []
    decreases |s|
  {
    if s != [] && IsSpace(s[|s| - 1]) then TrimEnd(s[..|s| - 1]) else s
  }

  /** `String.prototype.trim`: neither end of the result is white space, and
      the result is empty exactly when `s` is all white space. */
  function Trim(s: string): (r: string)
    ensures IsTrimmed(r)
    ensures r == [] <==> AllSpace(s)
  {
    TrimStartEmpty(s);
    TrimEndIsPrefix(TrimStart(s));
    TrimEnd(TrimStart(s))
  }

  /** `trimStart` removes everything exactly when everything is white space. */
  lemma {:induction false} TrimStartEmpty(s: string)
    ensures TrimStart(s) == [] <==> AllSpace(s)
    decreases |s|
  {
    if s != [] && IsSpace(s[0]) {
      TrimStartEmpty(s[1..]);
      AllSpaceTail(s);
    }
  }

  /** `trimEnd` keeps a prefix of its input. */
  lemma {:induction false} TrimEndIsPrefix(s: string)
    ensures TrimEnd(s) == s[..|TrimEnd(s)|]
    decreases |s|
  {
    if s != [] && IsSpace(s[|s| - 1]) {
      TrimEndIsPrefix(s[..|s| - 1]);
    }
  }

  lemma {:induction false} TrimStartNoDoubleSpace(s: string)
    requires NoDoubleSpace(s)
    ensures NoDoubleSpace(TrimStart(s))
    decreases |s|
  {
    if s != [] && IsSpace(s[0]) {
      assert NoDoubleSpace(s[1..]) by {
        forall k | 0 <= k < |s| - 2 ensures !(IsSpace(s[1..][k]) && IsSpace(s[1..][k + 1])) {
          assert s[1..][k] == s[k + 1] && s[1..][k + 1] == s[k + 2];
        }
      }
      TrimStartNoDoubleSpace(s[1..]);
    }
  }

  lemma {:induction false} TrimEndNoDoubleSpace(s: string)
    requires NoDoubleSpace(s)
    ensures NoDoubleSpace(TrimEnd(s))
    decreases |s|
  {
    if s != [] && IsSpace(s[|s| - 1]) {
      var p := s[..|s| - 1];
      assert NoDoubleSpace(p) by {
        forall k | 0 <= k < |p| - 1 ensures !(IsSpace(p[k]) && IsSpace(p[k + 1])) {
          assert p[k] == s[k] && p[k + 1] == s[k + 1];
        }
      }
      TrimEndNoDoubleSpace(p);
    }
  }

  /** Trimming keeps a string free of adjacent white space. */
  lemma TrimNoDoubleSpace(s: string)
    requires NoDoubleSpace(s)
    ensures NoDoubleSpace(Trim(s))
  {
    TrimStartNoDoubleSpace(s);
    TrimEndNoDoubleSpace(TrimStart(s));
  }

  /** White space in front of a string does not change its `trimStart`. */
  lemma {:induction false} TrimStartPadded(a: string, y: string)
    requires AllSpace(a)
    ensures TrimStart(a + y) == TrimStart(y)
    decreases |a|
  {
    if a == [] {
      assert a + y == y;
    } else {
      assert (a + y)[1..] == a[1..] + y;
      TrimStartPadded(a[1..], y);
    }
  }

  /** White space behind a string does not change its `trimEnd`. */
  lemma {:induction false} TrimEndPadded(y: string, b: string)
    requires AllSpace(b)
    ensures TrimEnd(y + b) == TrimEnd(y)
    decreases |b|
  {
    if b == [] {
      assert y + b == y;
    } else {
      assert (y + b)[..|y + b| - 1] == y + b[..|b| - 1];
      TrimEndPadded(y, b[..|b| - 1]);
    }
  }

  /** `trimStart` of a string that is not all white space stops inside it. */
  lemma {:induction false} TrimStartAppend(x: string, b: string)
    requires !AllSpace(x)
    ensures TrimStart(x + b) == TrimStart(x) + b
    decreases |x|
  {
    if IsSpace(x[0]) {
      assert (x + b)[1..] == x[1..] + b;
      AllSpaceTail(x);
      TrimStartAppend(x[1..], b);
    }
  }

  /** Trimming ignores any white space wrapped around a string. */
  lemma TrimPadded(a: string, x: string, b: string)
    requires AllSpace(a) && AllSpace(b)
    ensures Trim(a + x + b) == Trim(x)
  {
    var s := a + x + b;
    if AllSpace(x) {
      assert AllSpace(s) by {
        forall k | 0 <= k < |s| ensures IsSpace(s[k]) {
          if k < |a| { assert s[k] == a[k]; }
          else if k < |a| + |x| { assert s[k] == x[k - |a|]; }
          else { assert s[k] == b[k - |a| - |x|]; }
        }
      }
    } else {
      assert s == a + (x + b);
      TrimStartPadded(a, x + b);
      TrimStartAppend(x, b);
      TrimEndPadded(TrimStart(x), b);
    }
  }

  /** A string with no white space at its ends is its own trim. */
  lemma TrimOfTrimmed(s: string)
    requires IsTrimmed(s)
    ensures Trim(s) == s
  {
  }

  predicate IsAsciiUpper(c: char) { 'A' <= c <= 'Z' }
  predicate IsAsciiLower(c: char) { 'a' <= c <= 'z' }
  predicate IsAsciiLetter(c: char) { IsAsciiUpper(c) || IsAsciiLower(c) }
  predicate IsAsciiDigit(c: char) { '0' <= c <= '9' }

  function LowerChar(c: char): char {
    if IsAsciiUpper(c) then (c as int + 32) as char else c
  }

  function UpperChar(c: char): char {
    if IsAsciiLower(c) then (c as int - 32) as char else c
  }

  /** `toLowerCase`, on ASCII letters. */
  function Lower(s: string): (r: string)
    ensures |r| == |s| && forall k :: 0 <= k < |s| ==> r[k] == LowerChar(s[k])
  {
    seq(|s|, k requires 0 <= k < |s| => LowerChar(s[k]))
  }

  /** `toUpperCase`, on ASCII letters. */
  function Upper(s: string): (r: string)
    ensures |r| == |s| && forall k :: 0 <= k < |s| ==> r[k] == UpperChar(s[k])
  {
    seq(|s|, k requires 0 <= k < |s| => UpperChar(s[k]))
  }

  /** `a` and `b` are equal up to the case of ASCII letters. */
  predicate EqualsIgnoringCase(a: string, b: string) {
    |a| == |b| && forall k :: 0 <= k < |a| ==> LowerChar(a[k]) == LowerChar(b[k])
  }

  /** `part` occurs in `s` at index `i`, up to the case of ASCII letters. */
  predicate MatchesAt(s: string, part: string, i: int) {
    0 <= i <= |s| - |part| && EqualsIgnoringCase(s[i..i + |part|], part)
  }

  /** `part` occurs somewhere in `s`, up to the case of ASCII letters. */
  predicate ContainsIgnoringCase(s: string, part: string) {
    exists i :: 0 <= i <= |s| - |part| && MatchesAt(s, part, i)
  }

  predicate NoAsciiUpper(s: string) {
    forall k :: 0 <= k < |s| ==> !IsAsciiUpper(s[k])
  }

  predicate AllAsciiUpper(s: string) {
    forall k :: 0 <= k < |s| ==> IsAsciiUpper(s[k])
  }

  /** Lower-casing gives a lower-case `b` exactly when the two agree up to case. */
  lemma LowerMatches(a: string, b: string)
    requires NoAsciiUpper(b)
    ensures Lower(a) == b <==> EqualsIgnoringCase(a, b)
  {
    if EqualsIgnoringCase(a, b) {
      assert forall k :: 0 <= k < |a| ==> Lower(a)[k] == b[k];
    }
  }

  lemma UpperCharMatches(c: char, d: char)
    requires IsAsciiUpper(d)
    ensures UpperChar(c) == d <==> LowerChar(c) == LowerChar(d)
  {
  }

  /** Upper-casing gives an upper-case `b` exactly when the two agree up to case. */
  lemma UpperMatches(a: string, b: string)
    requires AllAsciiUpper(b)
    ensures Upper(a) == b <==> EqualsIgnoringCase(a, b)
  {
    if |a| == |b| {
      forall k | 0 <= k < |a| ensures UpperChar(a[k]) == b[k] <==> LowerChar(a[k]) == LowerChar(b[k]) {
        UpperCharMatches(a[k], b[k]);
      }
      if EqualsIgnoringCase(a, b) {
        assert forall k :: 0 <= k < |a| ==> Upper(a)[k] == b[k];
      }
    }
  }

  /** A lower-case `part` occurs in the lower-cased `s` exactly when it
      occurs in `s` up to case. */
  lemma LowerContains(s: string, part: string)
    requires NoAsciiUpper(part)
    ensures Contains(Lower(s), part) <==> ContainsIgnoringCase(s, part)
  {
    if Contains(Lower(s), part) {
      var i := ContainsWitness(Lower(s), part);
      assert Lower(s[i..i + |part|]) == Lower(s)[i..i + |part|];
      LowerMatches(s[i..i + |part|], part);
      assert MatchesAt(s, part, i);
    }
    if ContainsIgnoringCase(s, part) {
      var i :| 0 <= i <= |s| - |part| && MatchesAt(s, part, i);
      assert Lower(s[i..i + |part|]) == Lower(s)[i..i + |part|];
      LowerMatches(s[i..i + |part|], part);
      ContainsAt(Lower(s), part, i);
    }
  }

  predicate StartsWith(s: string, prefix: string) {
    |prefix| <= |s| && s[..|prefix|] == prefix
  }

  predicate EndsWith(s: string, suffix: string) {
    |suffix| <= |s| && s[|s| - |suffix|..] == suffix
  }

  /** `s.includes(part)`. */
  predicate Contains(s: string, part: string)
    decreases |s|
  {
    StartsWith(s, part) || (s != [] && Contains(s[1..], part))
  }

  lemma {:induction false} ContainsAt(s: string, part: string, i: nat)
    requires i + |part| <= |s| && s[i..i + |part|] == part
    ensures Contains(s, part)
    decreases i
  {
    if i > 0 {
      assert s[1..][i - 1..i - 1 + |part|] == s[i..i + |part|];
      ContainsAt(s[1..], part, i - 1);
    }
  }

  /** `Contains` holds exactly when `part` occurs at some index of `s`. */
  lemma {:induction false} ContainsWitness(s: string, part: string) returns (i: nat)
    requires Contains(s, part)
    ensures i + |part| <= |s| && s[i..i + |part|] == part
    decreases |s|
  {
    if StartsWith(s, part) {
      i := 0;
    } else {
      var j := ContainsWitness(s[1..], part);
      assert s[1..][j..j + |part|] == s[j + 1..j + 1 + |part|];
      i := j + 1;
    }
  }

  /** No character of `s` is `c`. */
  predicate Free(s: string, c: char) {
    forall i :: 0 <= i < |s| ==> s[i] != c
  }

  /** `s.split(sep)` for a one-character separator: the pieces between
      separators, empty ones included, at least one. */
  function Split(s: string, sep: char): (r: seq<string>)
    ensures |r| >= 1
    ensures forall k :: 0 <= k < |r| ==> Free(r[k], sep)
  {
    if s == [] then [""]
    else
      var rest := Split(s[1..], sep);
      if s[0] == sep then [""] + rest
      else [[s[0]] + rest[0]] + rest[1..]
  }

  /** `parts.join(sep)`. */
  function Join(parts: seq<string>, sep: string): (r: string)
    decreases |parts|
  {
    if parts == [] then ""
    else if |parts| == 1 then parts[0]
    else parts[0] + sep + Join(parts[1..], sep)
  }

  /** Joining the pieces with the separator gives back the string. */
  lemma {:induction false} JoinSplit(s: string, sep: char)
    ensures Join(Split(s, sep), [sep]) == s
  {
    if s != [] {
      var rest := Split(s[1..], sep);
      JoinSplit(s[1..], sep);
      if s[0] != sep {
        var parts := Split(s, sep);
        assert parts[0] == [s[0]] + rest[0] && parts[1..] == rest[1..];
        if |rest| == 1 {
          assert parts == [[s[0]] + rest[0]];
        } else {
          assert Join(rest, [sep]) == rest[0] + [sep] + Join(rest[1..], [sep]);
        }
      }
    }
  }

  /** A string without the separator is one piece. */
  lemma {:induction false} SplitFree(a: string, sep: char)
    requires Free(a, sep)
    ensures Split(a, sep) == [a]
  {
    if a != [] {
      SplitFree(a[1..], sep);
      assert [a[0]] + a[1..] == a;
    }
  }

  /** A separator-free piece followed by the separator splits off. */
  lemma {:induction false} SplitCons(a: string, sep: char, b: string)
    requires Free(a, sep)
    ensures Split(a + [sep] + b, sep) == [a] + Split(b, sep)
  {
    if a == [] {
      assert a + [sep] + b == [sep] + b;
      assert ([sep] + b)[1..] == b;
    } else {
      SplitCons(a[1..], sep, b);
      assert (a + [sep] + b)[1..] == a[1..] + [sep] + b;
      assert [a[0]] + a[1..] == a;
    }
  }

  /** Splitting a join of separator-free pieces gives the pieces back. */
  lemma {:induction false} SplitJoin(parts: seq<string>, sep: char)
    requires |parts| >= 1
    requires forall k :: 0 <= k < |parts| ==> Free(parts[k], sep)
    ensures Split(Join(parts, [sep]), sep) == parts
    decreases |parts|
  {
    if |parts| == 1 {
      SplitFree(parts[0], sep);
    } else {
      SplitJoin(parts[1..], sep);
      SplitCons(parts[0], sep, Join(parts[1..], [sep]));
    }
  }

  /** Joining a prefix of the pieces gives a prefix of the whole join. */
  lemma {:induction false} JoinPrefix(parts: seq<string>, n: nat, sep: string)
    requires n <= |parts|
    ensures StartsWith(Join(parts, sep), Join(parts[..n], sep))
    decreases n
  {
    if n == 0 {
    } else if |parts| == 1 {
      assert parts[..n] == parts;
    } else if n == 1 {
      assert parts[..n] == [parts[0]];
    } else {
      JoinPrefix(parts[1..], n - 1, sep);
      assert parts[..n][1..] == parts[1..][..n - 1];
    }
  }

  // ---------------------------------------------------------------------
  // Runs of separators

  /** The non-empty pieces of `parts`, in order. */
  function NonEmptyParts(parts: seq<string>): (r: seq<string>)
    ensures |r| <= |parts|
    ensures forall k :: 0 <= k < |r| ==> r[k] != [] && r[k] in parts
  {
    if parts == [] then []
    else (if parts[0] == [] then [] else [parts[0]]) + NonEmptyParts(parts[1..])
  }

  lemma {:induction false} NonEmptyPartsAppend(a: seq<string>, b: seq<string>)
    ensures NonEmptyParts(a + b) == NonEmptyParts(a) + NonEmptyParts(b)
    decreases |a|
  {
    if a == [] {
      assert a + b == b;
    } else {
      assert (a + b)[0] == a[0] && (a + b)[1..] == a[1..] + b;
      NonEmptyPartsAppend(a[1..], b);
    }
  }

  lemma {:induction false} NonEmptyPartsOfNonEmpty(a: seq<string>)
    requires forall k :: 0 <= k < |a| ==> a[k] != []
    ensures NonEmptyParts(a) == a
    decreases |a|
  {
    if a != [] {
      NonEmptyPartsOfNonEmpty(a[1..]);
    }
  }

  /** The pieces `split` leaves around a run of separators: the first and the
      last piece stay, the empty pieces between two separators go. Joining
      them again with one separator is what replacing every run of
      separators by one separator does. */
  function DropInnerEmpties(parts: seq<string>): (r: seq<string>)
    ensures |r| <= |parts|
    ensures parts != [] ==> r != [] && r[0] == parts[0] && r[|r| - 1] == parts[|parts| - 1]
    ensures forall k :: 0 < k < |r| - 1 ==> r[k] != []
    ensures forall k :: 0 <= k < |r| ==> r[k] in parts
  {
    if |parts| <= 1 then parts
    else [parts[0]] + NonEmptyParts(parts[1..|parts| - 1]) + [parts[|parts| - 1]]
  }

  /** A second separator in a row adds nothing. */
  lemma DropRepeatedEmpty(p: seq<string>)
    requires p != []
    ensures DropInnerEmpties([""] + [""] + p) == DropInnerEmpties([""] + p)
  {
    var x := [""] + [""] + p;
    var y := [""] + p;
    assert x[1..|x| - 1] == [""] + p[..|p| - 1];
    assert ([""] + p[..|p| - 1])[1..] == p[..|p| - 1];
    assert y[1..|y| - 1] == p[..|p| - 1];
  }

  /** A separator in front of a non-empty first piece is kept. */
  lemma DropLeadingEmpty(p: seq<string>)
    requires p == [""] || (p != [] && p[0] != "")
    ensures DropInnerEmpties([""] + p) == [""] + DropInnerEmpties(p)
  {
    var y := [""] + p;
    assert y[1..|y| - 1] == p[..|p| - 1];
    if |p| >= 2 {
      var m := p[..|p| - 1];
      assert m[0] == p[0] && m[1..] == p[1..|p| - 1];
    }
  }

  /** Changing the first piece changes only the first piece of the result. */
  lemma DropKeepsHead(a: string, p: seq<string>)
    requires p != []
    ensures DropInnerEmpties([a] + p[1..]) == [a] + DropInnerEmpties(p)[1..]
  {
    var y := [a] + p[1..];
    if |p| >= 2 {
      assert y[1..|y| - 1] == p[1..|p| - 1];
    }
  }

  /** Dropping the inner empty pieces keeps the non-empty ones. */
  lemma NonEmptyOfDrop(p: seq<string>)
    ensures NonEmptyParts(DropInnerEmpties(p)) == NonEmptyParts(p)
  {
    if |p| >= 2 {
      var first, inner, last := [p[0]], p[1..|p| - 1], [p[|p| - 1]];
      assert p == first + inner + last;
      NonEmptyPartsAppend(first + inner, last);
      NonEmptyPartsAppend(first, inner);
      NonEmptyPartsAppend(first + NonEmptyParts(inner), last);
      NonEmptyPartsAppend(first, NonEmptyParts(inner));
      NonEmptyPartsOfNonEmpty(NonEmptyParts(inner));
    }
  }

  /** `s` with every white-space character replaced by a plain space. */
  function Blanked(s: string): (r: string)
    ensures |r| == |s|
    ensures forall k :: 0 <= k < |s| ==> r[k] == if IsSpace(s[k]) then ' ' else s[k]
  {
    if s == [] then [] else [if IsSpace(s[0]) then ' ' else s[0]] + Blanked(s[1..])
  }

  /** `s` holds no white space. */
  predicate NoSpace(s: string) {
    forall k :: 0 <= k < |s| ==> !IsSpace(s[k])
  }

  /** Splitting at the plain space a string whose only white space is plain
      spaces gives pieces without white space. */
  lemma {:induction false} SplitAtSpaceNoSpace(s: string)
    requires forall k :: 0 <= k < |s| && IsSpace(s[k]) ==> s[k] == ' '
    ensures forall j :: 0 <= j < |Split(s, ' ')| ==> NoSpace(Split(s, ' ')[j])
    decreases |s|
  {
    if s != [] {
      var rest := Split(s[1..], ' ');
      SplitAtSpaceNoSpace(s[1..]);
      if s[0] != ' ' {
        var head := [s[0]] + rest[0];
        assert NoSpace(head) by {
          forall k | 0 <= k < |head| ensures !IsSpace(head[k]) {
            if k > 0 { assert head[k] == rest[0][k - 1]; }
          }
        }
      }
    }
  }

  /** Dropping inner empty pieces keeps every piece free of white space. */
  lemma DropKeepsNoSpace(p: seq<string>)
    requires forall k :: 0 <= k < |p| ==> NoSpace(p[k])
    ensures forall k :: 0 <= k < |DropInnerEmpties(p)| ==> NoSpace(DropInnerEmpties(p)[k])
  {
    var q := DropInnerEmpties(p);
    forall k | 0 <= k < |q| ensures NoSpace(q[k]) {
      var m :| 0 <= m < |p| && p[m] == q[k];
    }
  }

  /** The words of `s`: its maximal runs of non-white-space characters, as
      `s.split(/\s+/)` gives them once the empty pieces are dropped. */
  function SpaceWords(s: string): (r: seq<string>)
    ensures forall k :: 0 <= k < |r| ==> r[k] != [] && NoSpace(r[k])
  {
    SplitAtSpaceNoSpace(Blanked(s));
    NonEmptyParts(Split(Blanked(s), ' '))
  }

  /** Trimming after a part that is not all white space only trims the part. */
  lemma {:induction false} TrimEndAppend(a: string, x: string)
    requires !AllSpace(x)
    ensures TrimEnd(a + x) == a + TrimEnd(x)
    decreases |x|
  {
    if IsSpace(x[|x| - 1]) {
      var init := x[..|x| - 1];
      assert (a + x)[..|a + x| - 1] == a + init;
      assert !AllSpace(init) by {
        var k :| 0 <= k < |x| && !IsSpace(x[k]);
        assert init[k] == x[k];
      }
      TrimEndAppend(a, init);
    }
  }

  /** The first character of a join is the first character of the first piece. */
  lemma JoinHead(parts: seq<string>, sep: string)
    requires parts != [] && parts[0] != []
    ensures Join(parts, sep) != [] && Join(parts, sep)[0] == parts[0][0]
  {
  }

  /** White space after a first piece that is not white space stays inside. */
  lemma TrimJoinCons(q0: string, j: string)
    requires q0 != [] && NoSpace(q0)
    requires j != [] && !IsSpace(j[0])
    ensures Trim(q0 + " " + j) == q0 + " " + Trim(j)
  {
    assert !AllSpace(j);
    assert TrimStart(j) == j;
    assert TrimStart(q0 + " " + j) == q0 + " " + j;
    TrimEndAppend(q0 + " ", j);
  }

  /** One piece followed by a space trims to the piece. */
  lemma TrimPieceSpace(q0: string)
    requires NoSpace(q0)
    ensures Trim(q0 + " ") == q0
  {
    assert q0 + " " == "" + q0 + " ";
    TrimPadded("", q0, " ");
    if q0 != [] {
      TrimOfTrimmed(q0);
    }
  }

  /** Trimming pieces joined by single spaces, when only the first and the
      last piece may be empty, leaves the non-empty pieces joined by single
      spaces. */
  lemma {:induction false} TrimJoin(q: seq<string>)
    requires q != []
    requires forall k :: 0 <= k < |q| ==> NoSpace(q[k])
    requires forall k :: 0 < k < |q| - 1 ==> q[k] != []
    ensures Trim(Join(q, " ")) == Join(NonEmptyParts(q), " ")
    decreases |q|
  {
    if |q| == 1 {
      assert q[1..] == [];
      if q[0] != [] {
        TrimOfTrimmed(q[0]);
      }
    } else {
      var q0, rest := q[0], q[1..];
      var j := Join(rest, " ");
      assert Join(q, " ") == q0 + " " + j;
      assert NonEmptyParts(q) == (if q0 == [] then [] else [q0]) + NonEmptyParts(rest);
      TrimJoin(rest);
      if q0 == [] {
        assert Join(q, " ") == " " + j + "";
        TrimPadded(" ", j, "");
        assert Trim(Join(q, " ")) == Trim(j);
        assert NonEmptyParts(q) == NonEmptyParts(rest);
      } else if |rest| == 1 && rest[0] == [] {
        assert rest[1..] == [];
        assert j == [] && NonEmptyParts(rest) == [];
        assert Join(q, " ") == q0 + " ";
        TrimPieceSpace(q0);
      } else {
        assert rest[0] != [];
        JoinHead(rest, " ");
        TrimJoinCons(q0, j);
        assert NonEmptyParts(rest) != [];
      }
    }
  }
}
