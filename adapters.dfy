/** The adapter from the public API's post list item to the article the
    pages render, and the numeric id it derives from the slug by a 32-bit
    string hash. */
module Adapters {
  import opened Text

  const TwoTo31: int := 0x8000_0000
  const TwoTo32: int := 0x1_0000_0000

  /** `x | 0`: two's-complement truncation to a signed 32-bit integer. */
  function Wrap32(x: int): (r: int)
    ensures -TwoTo31 <= r < TwoTo31
    ensures -TwoTo31 <= x < TwoTo31 ==> r == x
  {
    (x + TwoTo31) % TwoTo32 - TwoTo31
  }

  /** The wrap takes off a multiple of 2^32. */
  lemma Wrap32Def(x: int)
    ensures Wrap32(x) == x - TwoTo32 * ((x + TwoTo31) / TwoTo32)
  {
  }

  /** Adding a multiple of 2^32 does not change the wrap. */
  lemma Wrap32Shift(x: int, k: int)
    ensures Wrap32(x + TwoTo32 * k) == Wrap32(x)
  {
    var a := x + TwoTo31;
    var q := a / TwoTo32;
    var m := a % TwoTo32;
    assert a + TwoTo32 * k == TwoTo32 * (q + k) + m;
    assert (a + TwoTo32 * k) % TwoTo32 == m;
  }

  /** The UTF-16 code units of a string: one per character below U+10000,
      a surrogate pair for every other one. */
  function CodeUnits(s: string): (r: seq<int>)
    ensures |r| >= |s|
    ensures forall k :: 0 <= k < |r| ==> 0 <= r[k] < 0x1_0000
    ensures s != [] && (s[|s| - 1] as int) < 0x1_0000 ==> r[|r| - 1] == s[|s| - 1] as int
    ensures s != [] && (s[|s| - 1] as int) >= 0x1_0000 ==>
      |r| >= 2 &&
      r[|r| - 2] == 0xD800 + (s[|s| - 1] as int - 0x1_0000) / 0x400 &&
      r[|r| - 1] == 0xDC00 + (s[|s| - 1] as int - 0x1_0000) % 0x400
  {
    if s == [] then []
    else
      var c := s[|s| - 1] as int;
      var last := if c < 0x1_0000 then [c]
                  else [0xD800 + (c - 0x1_0000) / 0x400, 0xDC00 + (c - 0x1_0000) % 0x400];
      CodeUnits(s[..|s| - 1]) + last
  }

  /** A string below U+10000 has one code unit per character, its code. */
  lemma {:induction false} BmpCodeUnits(s: string)
    requires forall k :: 0 <= k < |s| ==> (s[k] as int) < 0x1_0000
    ensures CodeUnits(s) == seq(|s|, k requires 0 <= k < |s| => s[k] as int)
  {
    if s != [] {
      BmpCodeUnits(s[..|s| - 1]);
    }
  }

  /** One round of the loop: `hash = (hash << 5) - hash + code; hash |= 0`.
      `hash << 5` itself truncates to 32 bits. */
  function HashStep(hash: int, code: int): (r: int)
    ensures -TwoTo31 <= r < TwoTo31
  {
    Wrap32(Wrap32(hash * 32) - hash + code)
  }

  /** The hash accumulated over `units`, from 0. */
  function HashOf(units: seq<int>): (r: int)
    ensures -TwoTo31 <= r < TwoTo31
  {
    if units == [] then 0 else HashStep(HashOf(units[..|units| - 1]), units[|units| - 1])
  }

  /** The polynomial the hash truncates: sum of `units[i] * 31^(n-1-i)`. */
  function Polynomial(units: seq<int>): int {
    if units == [] then 0 else 31 * Polynomial(units[..|units| - 1]) + units[|units| - 1]
  }

  /** The hash is the base-31 polynomial of the code units, truncated to a
      signed 32-bit integer once at the end (Java's `String.hashCode`). */
  lemma {:induction false} HashIsWrappedPolynomial(units: seq<int>)
    ensures HashOf(units) == Wrap32(Polynomial(units))
  {
    if units != [] {
      var init := units[..|units| - 1];
      var c := units[|units| - 1];
      HashIsWrappedPolynomial(init);
      var h := HashOf(init);
      var p := Polynomial(init);
      Wrap32Def(p);
      var k := (p + TwoTo31) / TwoTo32;
      assert h == p - TwoTo32 * k;
      Wrap32Def(h * 32);
      var j := (h * 32 + TwoTo31) / TwoTo32;
      calc {
        HashOf(units);
        Wrap32(Wrap32(h * 32) - h + c);
        Wrap32(31 * p + c + TwoTo32 * (-31 * k - j));
        { Wrap32Shift(31 * p + c, -31 * k - j); }
        Wrap32(31 * p + c);
      }
    }
  }

  /** `Math.abs` of the final hash. */
  function HashId(s: string): (r: int)
    ensures 0 <= r <= TwoTo31
    ensures r == TwoTo31 <==> HashOf(CodeUnits(s)) == -TwoTo31
    ensures HashOf(CodeUnits(s)) >= 0 ==> r == HashOf(CodeUnits(s))
    ensures HashOf(CodeUnits(s)) < 0 ==> r == -HashOf(CodeUnits(s))
  {
    var h := HashOf(CodeUnits(s));
    if h < 0 then -h else h
  }

  /** `hashStringToNumber`: the loop over the code units. */
  method HashStringToNumber(str: string) returns (id: int)
    ensures id == HashId(str)
  {
    var units := CodeUnits(str);
    var hash := 0;
    for i := 0 to |units|
      invariant hash == HashOf(units[..i])
    {
      assert units[..i + 1][..i] == units[..i];
      hash := Wrap32(Wrap32(hash * 32) - hash + units[i]);
    }
    assert units[..|units|] == units;
    id := if hash < 0 then -hash else hash;
  }

  /** The empty slug gets id 0; a one-letter slug gets its character code. */
  lemma SmallHashes()
    ensures HashId("") == 0
    ensures HashId("a") == 97
    ensures HashId("ab") == 31 * 97 + 98
  {
    BmpCodeUnits("a");
    BmpCodeUnits("ab");
    assert CodeUnits("ab") == [97, 98];
    assert [97, 98][..1] == [97];
    assert HashOf([97]) == HashStep(0, 97);
  }

  /** The post list item of the public API. */
  datatype PostListItem = PostListItem(
    id: string,
    slug: string,
    title: string,
    subtitle: Option<string>,
    section: string,
    publishedAt: Option<string>,
    coverImageUrl: Option<string>)

  /** The article the pages render. */
  datatype Article = Article(
    id: int,
    section: string,
    title: string,
    subtitle: string,
    author: string,
    date: string,
    coverImage: Option<string>)

  /** `mapPostToArticle`: id from the slug's hash, a missing subtitle as "",
      author "Test", the publication date formatted (`formatDate` stands for
      `toLocaleDateString("vi-VN")`) or "" without one; section, title and
      cover copied. */
  function MapPostToArticle(post: PostListItem, formatDate: string -> string): (a: Article)
    ensures a.id == HashId(post.slug) && 0 <= a.id <= TwoTo31
    ensures a.section == post.section && a.title == post.title && a.coverImage == post.coverImageUrl
    ensures a.subtitle == post.subtitle.GetOr("")
    ensures a.author == "Test"
    ensures post.publishedAt.None? || post.publishedAt.value == "" ==> a.date == ""
    ensures post.publishedAt.Some? && post.publishedAt.value != "" ==> a.date == formatDate(post.publishedAt.value)
  {
    Article(HashId(post.slug), post.section, post.title, post.subtitle.GetOr(""), "Test",
            if post.publishedAt.Some? && post.publishedAt.value != "" then formatDate(post.publishedAt.value) else "",
            post.coverImageUrl)
  }
}
