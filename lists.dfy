/** The array methods the list queries use: `filter`, `find`, `findIndex`,
    and `slice` with JavaScript's treatment of negative and too-large
    bounds. */
module Lists {
  import opened Text

  /** No element occurs twice. */
  predicate Distinct<T(==)>(s: seq<T>) {
    forall i, j :: 0 <= i < j < |s| ==> s[i] != s[j]
  }

  /** `a` is `b` with some elements dropped, the rest in order. */
  predicate IsSubsequence<T(==)>(a: seq<T>, b: seq<T>)
    decreases |b|
  {
    if a == [] then true
    else if b == [] then false
    else (a[0] == b[0] && IsSubsequence(a[1..], b[1..])) || IsSubsequence(a, b[1..])
  }

  /** `s.filter(keep)`. */
  function Filter<T(==,!new)>(s: seq<T>, keep: T -> bool): (r: seq<T>)
    ensures |r| <= |s|
    ensures forall x :: x in r <==> x in s && keep(x)
    ensures forall k :: 0 <= k < |r| ==> keep(r[k])
  {
    if s == [] then []
    else (if keep(s[0]) then [s[0]] else []) + Filter(s[1..], keep)
  }

  /** The prefix of length `i + 1` is the prefix of length `i` and the element at `i`. */
  lemma TakeSnoc<T>(s: seq<T>, i: nat)
    requires i < |s|
    ensures s[..i + 1] == s[..i] + [s[i]]
  {
    assert (s[..i] + [s[i]])[i] == s[i];
  }

  /** A filter that keeps every element returns the list. */
  lemma {:induction false} FilterAll<T(!new)>(s: seq<T>, keep: T -> bool)
    requires forall k :: 0 <= k < |s| ==> keep(s[k])
    ensures Filter(s, keep) == s
  {
    if s != [] {
      FilterAll(s[1..], keep);
    }
  }

  /** A filter that keeps no element returns the empty list. */
  lemma {:induction false} FilterNone<T(!new)>(s: seq<T>, keep: T -> bool)
    requires forall k :: 0 <= k < |s| ==> !keep(s[k])
    ensures Filter(s, keep) == []
  {
    if s != [] {
      FilterNone(s[1..], keep);
    }
  }

  /** Filtering a list with one more element at the end. */
  lemma {:induction false} FilterSnoc<T(!new)>(s: seq<T>, x: T, keep: T -> bool)
    ensures Filter(s + [x], keep) == Filter(s, keep) + (if keep(x) then [x] else [])
    decreases |s|
  {
    if s == [] {
      assert [x][1..] == [];
    } else {
      var t := s + [x];
      assert t[0] == s[0] && t[1..] == s[1..] + [x];
      var head := if keep(s[0]) then [s[0]] else [];
      var tail := if keep(x) then [x] else [];
      FilterSnoc(s[1..], x, keep);
      assert Filter(t, keep) == head + Filter(s[1..] + [x], keep);
      assert Filter(s, keep) == head + Filter(s[1..], keep);
      AppendAssoc(head, Filter(s[1..], keep), tail);
    }
  }

  lemma AppendAssoc<T>(a: seq<T>, b: seq<T>, c: seq<T>)
    ensures a + (b + c) == (a + b) + c
  {
  }

  /** A filter keeps the surviving elements in their order. */
  lemma {:induction false} FilterIsSubsequence<T(!new)>(s: seq<T>, keep: T -> bool)
    ensures IsSubsequence(Filter(s, keep), s)
  {
    if s != [] {
      FilterIsSubsequence(s[1..], keep);
      var r := Filter(s, keep);
      if keep(s[0]) {
        assert r[0] == s[0] && r[1..] == Filter(s[1..], keep);
      } else {
        assert r == Filter(s[1..], keep);
      }
    }
  }

  /** Every list is a subsequence of itself. */
  lemma {:induction false} SubsequenceRefl<T>(s: seq<T>)
    ensures IsSubsequence(s, s)
  {
    if s != [] {
      SubsequenceRefl(s[1..]);
    }
  }

  /** A subsequence of a subsequence is a subsequence. */
  lemma {:induction false} SubsequenceTrans<T>(a: seq<T>, b: seq<T>, c: seq<T>)
    requires IsSubsequence(a, b) && IsSubsequence(b, c)
    ensures IsSubsequence(a, c)
    decreases |c|
  {
    if a != [] && c != [] {
      if b[0] == c[0] && IsSubsequence(b[1..], c[1..]) {
        if a[0] == b[0] && IsSubsequence(a[1..], b[1..]) {
          SubsequenceTrans(a[1..], b[1..], c[1..]);
        } else {
          SubsequenceTrans(a, b[1..], c[1..]);
        }
      } else {
        SubsequenceTrans(a, b, c[1..]);
      }
    }
  }

  /** A prefix of a subsequence is a subsequence. */
  lemma {:induction false} PrefixSubsequence<T>(a: seq<T>, b: seq<T>, n: nat)
    requires n <= |a| && IsSubsequence(a, b)
    ensures IsSubsequence(a[..n], b)
    decreases |b|
  {
    if n > 0 && b != [] {
      if a[0] == b[0] && IsSubsequence(a[1..], b[1..]) {
        PrefixSubsequence(a[1..], b[1..], n - 1);
        assert a[..n][1..] == a[1..][..n - 1];
      } else {
        PrefixSubsequence(a, b[1..], n);
      }
    }
  }

  /** A `slice` bound: a negative one counts from the back, and both are
      clamped to the list. */
  function SliceBound(n: nat, bound: int): (r: nat)
    ensures r <= n
    ensures 0 <= bound <= n ==> r == bound
  {
    if bound < 0 then (if n + bound > 0 then n + bound else 0)
    else if bound < n then bound else n
  }

  /** `s.slice(start, end)`. */
  function Slice<T>(s: seq<T>, start: int, end: int): (r: seq<T>)
    ensures |r| == if SliceBound(|s|, start) < SliceBound(|s|, end)
                   then SliceBound(|s|, end) - SliceBound(|s|, start) else 0
    ensures 0 <= start <= end <= |s| ==> r == s[start..end]
    ensures forall k :: 0 <= k < |r| ==> r[k] == s[SliceBound(|s|, start) + k]
  {
    var from := SliceBound(|s|, start);
    var to := SliceBound(|s|, end);
    if from < to then s[from..to] else []
  }

  /** `Array.from(new Set(s))`: the first occurrence of each element, in
      order. */
  function Dedup<T(==,!new)>(s: seq<T>): (r: seq<T>)
    ensures Distinct(r)
    ensures forall x :: x in r <==> x in s
    ensures s != [] ==> r != [] && r[0] == s[0]
    decreases |s|
  {
    if s == [] then []
    else
      var rest := Dedup(Filter(s[1..], (x: T) => x != s[0]));
      assert s[0] !in rest;
      assert forall j :: 0 <= j < |rest| ==> rest[j] in rest;
      [s[0]] + rest
  }

  /** A list without repeats holds each element at most once. */
  lemma {:induction false} DistinctCount<T>(s: seq<T>, x: T)
    requires Distinct(s)
    ensures multiset(s)[x] <= 1
  {
    if s != [] {
      assert s == [s[0]] + s[1..];
      assert Distinct(s[1..]) by {
        forall i, j | 0 <= i < j < |s[1..]| ensures s[1..][i] != s[1..][j] {
          assert s[1..][i] == s[i + 1] && s[1..][j] == s[j + 1];
        }
      }
      DistinctCount(s[1..], x);
      if s[0] == x {
        assert x !in s[1..];
      }
    }
  }

  /** Reordering a list without repeats gives a list without repeats. */
  lemma DistinctPermutation<T>(a: seq<T>, b: seq<T>)
    requires Distinct(a) && multiset(a) == multiset(b)
    ensures Distinct(b)
  {
    forall i, j | 0 <= i < j < |b| ensures b[i] != b[j] {
      if b[i] == b[j] {
        assert b == b[..j] + [b[j]] + b[j + 1..];
        assert b[i] in b[..j];
        assert multiset(b)[b[j]] >= 2;
        DistinctCount(a, b[j]);
      }
    }
  }

  /** The elements kept by `Dedup` are in their original order. */
  lemma {:induction false} DedupIsSubsequence<T(!new)>(s: seq<T>)
    ensures IsSubsequence(Dedup(s), s)
    decreases |s|
  {
    if s != [] {
      var filtered := Filter(s[1..], (x: T) => x != s[0]);
      DedupIsSubsequence(filtered);
      FilterIsSubsequence(s[1..], (x: T) => x != s[0]);
      SubsequenceTrans(Dedup(filtered), filtered, s[1..]);
      var r := Dedup(s);
      assert r[0] == s[0] && r[1..] == Dedup(filtered);
    }
  }

  /** The index of the first occurrence of `x` in `s`. */
  function FirstIndex<T(==)>(s: seq<T>, x: T): (r: nat)
    requires x in s
    ensures r < |s| && s[r] == x
  {
    if s[0] == x then 0 else 1 + FirstIndex(s[1..], x)
  }

  /** No earlier element is `x`. */
  lemma {:induction false} FirstIndexIsFirst<T>(s: seq<T>, x: T)
    requires x in s
    ensures x !in s[..FirstIndex(s, x)]
  {
    if s[0] != x {
      FirstIndexIsFirst(s[1..], x);
      assert s[..FirstIndex(s, x)] == [s[0]] + s[1..][..FirstIndex(s[1..], x)];
    }
  }

  /** Filtering keeps the order in which elements first occur. */
  lemma {:induction false} FilterKeepsFirstOrder<T(!new)>(s: seq<T>, keep: T -> bool, x: T, y: T)
    requires x in Filter(s, keep) && y in Filter(s, keep)
    requires FirstIndex(Filter(s, keep), x) < FirstIndex(Filter(s, keep), y)
    ensures FirstIndex(s, x) < FirstIndex(s, y)
  {
    var f := Filter(s, keep);
    var t := Filter(s[1..], keep);
    if keep(s[0]) {
      assert f == [s[0]] + t;
      if s[0] != x {
        assert s[0] != y;
        assert x in t && y in t;
        FilterKeepsFirstOrder(s[1..], keep, x, y);
      }
    } else {
      assert f == t;
      FilterKeepsFirstOrder(s[1..], keep, x, y);
    }
  }

  /** Past a different head, the first occurrence is one further on. */
  lemma FirstIndexTail<T>(s: seq<T>, x: T)
    requires s != [] && x in s[1..] && s[0] != x
    ensures x in s && FirstIndex(s, x) == 1 + FirstIndex(s[1..], x)
  {
    var k := FirstIndex(s[1..], x);
    assert s[k + 1] == x;
  }

  /** Two elements other than the head, ordered by first occurrence in
      the filtered tail, are ordered by first occurrence in `s`. */
  lemma FilterTailKeepsFirstOrder<T(!new)>(s: seq<T>, keep: T -> bool, x: T, y: T)
    requires s != [] && x != s[0] && y != s[0]
    requires x in Filter(s[1..], keep) && y in Filter(s[1..], keep)
    requires FirstIndex(Filter(s[1..], keep), x) < FirstIndex(Filter(s[1..], keep), y)
    ensures x in s && y in s && FirstIndex(s, x) < FirstIndex(s, y)
  {
    FilterKeepsFirstOrder(s[1..], keep, x, y);
    FirstIndexTail(s, x);
    FirstIndexTail(s, y);
  }

  /** The head comes before any other element. */
  lemma HeadFirst<T>(s: seq<T>, rest: seq<T>, j: nat)
    requires s != [] && 0 < j <= |rest| && rest[j - 1] != s[0] && rest[j - 1] in s[1..]
    ensures FirstIndex(s, ([s[0]] + rest)[0]) < FirstIndex(s, ([s[0]] + rest)[j])
  {
    assert ([s[0]] + rest)[j] == rest[j - 1];
    FirstIndexTail(s, rest[j - 1]);
  }

  /** `Dedup` lists the elements in the order of their first occurrence. */
  lemma {:induction false} DedupFirstOrder<T(!new)>(s: seq<T>, i: nat, j: nat)
    requires i < j < |Dedup(s)|
    ensures FirstIndex(s, Dedup(s)[i]) < FirstIndex(s, Dedup(s)[j])
    decreases |s|
  {
    var keep := (x: T) => x != s[0];
    var rest := Dedup(Filter(s[1..], keep));
    assert Dedup(s) == [s[0]] + rest;
    if i > 0 {
      DedupFirstOrder(Filter(s[1..], keep), i - 1, j - 1);
      assert Dedup(s)[i] == rest[i - 1] && Dedup(s)[j] == rest[j - 1];
      FilterTailKeepsFirstOrder(s, keep, rest[i - 1], rest[j - 1]);
    } else {
      HeadFirst(s, rest, j);
    }
  }

  /** `s.slice(0, end)`: a negative end counts from the back. */
  function SliceTo<T>(s: seq<T>, end: int): (r: seq<T>)
    ensures end >= 0 ==> |r| == (if end < |s| then end else |s|)
    ensures end < 0 ==> |r| == (if |s| + end > 0 then |s| + end else 0)
    ensures r == s[..|r|]
  {
    Slice(s, 0, end)
  }

  /** `s.find(p)`: the first element that satisfies `p`. */
  function Find<T>(s: seq<T>, p: T -> bool): (r: Option<T>)
    ensures r.Some? <==> exists k :: 0 <= k < |s| && p(s[k])
    ensures r.Some? ==> exists k :: 0 <= k < |s| && s[k] == r.value && p(s[k]) && forall j :: 0 <= j < k ==> !p(s[j])
  {
    if s == [] then None
    else if p(s[0]) then Some(s[0])
    else
      var r := Find(s[1..], p);
      assert forall k :: 0 < k < |s| ==> s[k] == s[1..][k - 1];
      r
  }

  /** When `p` holds of exactly one index, `find` returns that element. */
  lemma FindUnique<T>(s: seq<T>, p: T -> bool, k: nat)
    requires k < |s| && p(s[k])
    requires forall j :: 0 <= j < |s| && j != k ==> !p(s[j])
    ensures Find(s, p) == Some(s[k])
  {
  }
}
