/** The archive page: the published articles filtered by section and year,
    then grouped under a key taken from the date. The grouping object's
    entries come out in insertion order, which the model keeps as the list
    `order` next to the map from key to articles. */
module ArchivePage {
  import opened Text
  import opened Lists
  import opened MockData

  /** The "All" choice of both filters. */
  const AllChoice: string := "All"

  /** The filter: the section is "All" or the article's, and the year is
      "All" or occurs in the article's date string. */
  predicate Matches(a: Article, filterSection: string, filterYear: string) {
    (filterSection == AllChoice || a.section == filterSection)
    && (filterYear == AllChoice || Contains(a.date, filterYear))
  }

  /** `filteredArticles`, over the published articles. */
  function FilteredArticles(articles: seq<Article>, filterSection: string, filterYear: string): (r: seq<Article>)
    ensures forall a :: a in r <==>
      a in articles && a.status == "published"
      && (filterSection == AllChoice || a.section == filterSection)
      && (filterYear == AllChoice || Contains(a.date, filterYear))
    ensures IsSubsequence(r, articles)
  {
    var published := GetAllPublishedArticles(articles);
    var r := Filter(published, (a: Article) => Matches(a, filterSection, filterYear));
    FilterIsSubsequence(published, (a: Article) => Matches(a, filterSection, filterYear));
    SubsequenceTrans(r, published, articles);
    r
  }

  /** With both filters on "All" every published article is shown. */
  lemma AllAllShowsEverything(articles: seq<Article>)
    ensures FilteredArticles(articles, AllChoice, AllChoice) == GetAllPublishedArticles(articles)
  {
    var published := GetAllPublishedArticles(articles);
    FilterAll(published, (a: Article) => Matches(a, AllChoice, AllChoice));
  }

  /** The group key as written: the first two space-separated tokens of
      the date, joined by a space. */
  function GroupKey(date: string): (r: string)
    ensures StartsWith(date, r)
  {
    var tokens := Split(date, ' ');
    JoinSplit(date, ' ');
    JoinPrefix(tokens, |SliceTo(tokens, 2)|, [' ']);
    Join(SliceTo(tokens, 2), " ")
  }

  /** The month heading the page means to show: month and year. */
  function MonthKey(date: string): (r: string)
  {
    var tokens := Split(date, ' ');
    if |tokens| >= 3 then tokens[0] + " " + tokens[2] else date
  }

  /** The day column: the second token, or nothing when there is none. */
  function DayToken(date: string): (r: Option<string>)
    ensures r.Some? ==> Free(r.value, ' ')
  {
    var tokens := Split(date, ' ');
    if |tokens| >= 2 then Some(tokens[1]) else None
  }

  /** A date written "<month> <day>, <year>" splits into those three. */
  lemma DateTokens(month: string, day: string, year: string)
    requires Free(month, ' ') && Free(day, ' ') && Free(year, ' ')
    ensures Split(month + " " + day + " " + year, ' ') == [month, day, year]
  {
    assert month + " " + day + " " + year == month + [' '] + (day + [' '] + year);
    SplitCons(month, ' ', day + [' '] + year);
    SplitCons(day, ' ', year);
    SplitFree(year, ' ');
  }

  /** On such a date the key is month and day, and the day column shows
      the day token. */
  lemma {:induction false} KeysOfDate(month: string, day: string, year: string)
    requires Free(month, ' ') && Free(day, ' ') && Free(year, ' ')
    ensures GroupKey(month + " " + day + " " + year) == month + " " + day
    ensures MonthKey(month + " " + day + " " + year) == month + " " + year
    ensures DayToken(month + " " + day + " " + year) == Some(day)
  {
    DateTokens(month, day, year);
    var tokens := [month, day, year];
    assert SliceTo(tokens, 2) == [month, day];
    assert Join([month, day], " ") == month + " " + Join([day], " ");
  }

  /** As written, two days of one month get different headings. */
  lemma GroupKeySplitsMonth(month: string, day1: string, day2: string, year: string)
    requires Free(month, ' ') && Free(day1, ' ') && Free(day2, ' ') && Free(year, ' ')
    requires day1 != day2
    ensures GroupKey(month + " " + day1 + " " + year) != GroupKey(month + " " + day2 + " " + year)
  {
    KeysOfDate(month, day1, year);
    KeysOfDate(month, day2, year);
    var n := |month| + 1;
    assert (month + " " + day1)[n..] == day1;
    assert (month + " " + day2)[n..] == day2;
  }

  /** The heading of an article dated "December 14, 2025" is
      "December 14,", and the day column shows "14,". */
  lemma DecemberHeading()
    ensures GroupKey("December 14, 2025") == "December 14,"
    ensures DayToken("December 14, 2025") == Some("14,")
  {
    var month, day, year := "December", "14,", "2025";
    assert month + " " + day + " " + year == "December 14, 2025";
    KeysOfDate(month, day, year);
  }

  /** With the month key every date of a month shares one heading. */
  lemma SameMonthSameGroup(month: string, day1: string, day2: string, year: string)
    requires Free(month, ' ') && Free(day1, ' ') && Free(day2, ' ') && Free(year, ' ')
    ensures MonthKey(month + " " + day1 + " " + year) == MonthKey(month + " " + day2 + " " + year)
  {
    KeysOfDate(month, day1, year);
    KeysOfDate(month, day2, year);
  }

  /** The keys in order of first occurrence. */
  function Keys(s: seq<Article>, key: string -> string): (r: seq<string>)
    ensures Distinct(r)
  {
    if s == [] then []
    else
      var ks := Keys(s[..|s| - 1], key);
      var k := key(s[|s| - 1].date);
      if k in ks then ks else ks + [k]
  }

  /** One more article adds its key at the end when it is new. */
  lemma KeysSnoc(s: seq<Article>, a: Article, key: string -> string)
    ensures Keys(s + [a], key) == (if key(a.date) in Keys(s, key) then Keys(s, key) else Keys(s, key) + [key(a.date)])
  {
    assert (s + [a])[..|s|] == s;
  }

  /** The keys are exactly the keys of the articles. */
  lemma {:induction false} KeysCover(s: seq<Article>, key: string -> string)
    ensures forall k :: k in Keys(s, key) <==> exists i :: 0 <= i < |s| && key(s[i].date) == k
  {
    if s != [] {
      var init := s[..|s| - 1];
      KeysCover(init, key);
      assert forall i :: 0 <= i < |init| ==> init[i] == s[i];
    }
  }

  /** The articles under key `k`, in list order. */
  function Group(s: seq<Article>, key: string -> string, k: string): (r: seq<Article>)
    ensures forall a :: a in r <==> a in s && key(a.date) == k
  {
    Filter(s, (a: Article) => key(a.date) == k)
  }

  /** One more article joins the group of its key, at the end. */
  lemma GroupSnoc(s: seq<Article>, a: Article, key: string -> string, k: string)
    ensures Group(s + [a], key, k) == Group(s, key, k) + (if key(a.date) == k then [a] else [])
  {
    FilterSnoc(s, a, (x: Article) => key(x.date) == k);
  }

  /** A key not seen yet has an empty group. */
  lemma NewKeyEmptyGroup(s: seq<Article>, key: string -> string, k: string)
    requires k !in Keys(s, key)
    ensures Group(s, key, k) == []
  {
    KeysCover(s, key);
    FilterNone(s, (x: Article) => key(x.date) == k);
  }

  /** One step of the grouping: after an article is pushed into the array
      of its key (created empty on first sight), the order and the arrays
      are those of the longer list. */
  lemma GroupsGrow(seen: seq<Article>, a: Article, key: string -> string,
                   order: seq<string>, groups: map<string, seq<Article>>,
                   order': seq<string>, groups': map<string, seq<Article>>)
    requires order == Keys(seen, key)
    requires forall k :: k in groups <==> k in order
    requires forall k :: k in groups ==> groups[k] == Group(seen, key, k)
    requires order' == if key(a.date) in groups then order else order + [key(a.date)]
    requires forall j :: j in groups' <==> j in groups || j == key(a.date)
    requires key(a.date) in groups' && groups'[key(a.date)] == (if key(a.date) in groups then groups[key(a.date)] else []) + [a]
    requires forall j :: j in groups && j != key(a.date) ==> j in groups' && groups'[j] == groups[j]
    ensures order' == Keys(seen + [a], key)
    ensures forall j :: j in groups' <==> j in order'
    ensures forall j :: j in groups' ==> groups'[j] == Group(seen + [a], key, j)
  {
    var k := key(a.date);
    KeysSnoc(seen, a, key);
    if k !in groups {
      NewKeyEmptyGroup(seen, key, k);
    }
    forall j | j in groups'
      ensures groups'[j] == Group(seen + [a], key, j)
    {
      GroupSnoc(seen, a, key, j);
    }
  }

  /** The `forEach` that pushes every filtered article into the array of
      its key, creating the array on first sight of the key. */
  method GroupByKey(articles: seq<Article>, key: string -> string)
    returns (order: seq<string>, groups: map<string, seq<Article>>)
    ensures order == Keys(articles, key)
    ensures forall k :: k in groups <==> k in order
    ensures forall k :: k in groups ==> groups[k] == Group(articles, key, k)
  {
    order := [];
    groups := map[];
    for i := 0 to |articles|
      invariant order == Keys(articles[..i], key)
      invariant forall k :: k in groups <==> k in order
      invariant forall k :: k in groups ==> groups[k] == Group(articles[..i], key, k)
    {
      var article := articles[i];
      var monthYear := key(article.date);
      ghost var order0, groups0 := order, groups;
      if monthYear !in groups {
        groups := groups[monthYear := []];
        order := order + [monthYear];
      }
      groups := groups[monthYear := groups[monthYear] + [article]];
      TakeSnoc(articles, i);
      GroupsGrow(articles[..i], article, key, order0, groups0, order, groups);
    }
    assert articles[..|articles|] == articles;
  }

  /** Each article lands in the group of its own key and in no other. */
  lemma InExactlyOneGroup(s: seq<Article>, key: string -> string, i: nat)
    requires i < |s|
    ensures key(s[i].date) in Keys(s, key)
    ensures forall k :: k in Keys(s, key) ==> (s[i] in Group(s, key, k) <==> k == key(s[i].date))
  {
    KeysCover(s, key);
  }

  /** Within a group the articles keep their filtered order. */
  lemma GroupKeepsOrder(s: seq<Article>, key: string -> string, k: string)
    ensures IsSubsequence(Group(s, key, k), s)
  {
    FilterIsSubsequence(s, (a: Article) => key(a.date) == k);
  }

  /** Keys appear in order of first occurrence: the keys of a prefix are a
      prefix of the keys. */
  lemma {:induction false} KeysGrowAtTheEnd(s: seq<Article>, key: string -> string, n: nat)
    requires n <= |s|
    ensures Keys(s[..n], key) <= Keys(s, key)
    decreases |s| - n
  {
    if n < |s| {
      KeysGrowAtTheEnd(s, key, n + 1);
      assert s[..n + 1][..n] == s[..n];
      KeysSnoc(s[..n], s[n], key);
      assert s[..n + 1] == s[..n] + [s[n]];
    } else {
      assert s[..n] == s;
    }
  }

  /** The total of the group sizes over the keys `ks`. */
  function GroupSizes(s: seq<Article>, key: string -> string, ks: seq<string>): nat {
    if ks == [] then 0
    else GroupSizes(s, key, ks[..|ks| - 1]) + |Group(s, key, ks[|ks| - 1])|
  }

  /** One more article adds one to the total over keys that include its
      key once, and nothing otherwise. */
  lemma {:induction false} GroupSizesSnoc(s: seq<Article>, a: Article, key: string -> string, ks: seq<string>)
    requires Distinct(ks)
    ensures GroupSizes(s + [a], key, ks) == GroupSizes(s, key, ks) + (if key(a.date) in ks then 1 else 0)
  {
    if ks != [] {
      var init := ks[..|ks| - 1];
      var k := ks[|ks| - 1];
      GroupSizesSnoc(s, a, key, init);
      GroupSnoc(s, a, key, k);
      assert ks == init + [k];
      assert k !in init;
    }
  }

  /** The group sizes add up to the number of articles, the count shown
      above the groups. */
  lemma {:induction false} GroupSizesSum(s: seq<Article>, key: string -> string)
    ensures GroupSizes(s, key, Keys(s, key)) == |s|
  {
    if s != [] {
      var init := s[..|s| - 1];
      var a := s[|s| - 1];
      var k := key(a.date);
      var ks := Keys(init, key);
      TakeSnoc(s, |s| - 1);
      assert s[..|s|] == s;
      GroupSizesSum(init, key);
      GroupSizesSnoc(init, a, key, ks);
      KeysSnoc(init, a, key);
      if k !in ks {
        assert (ks + [k])[..|ks|] == ks;
        GroupSnoc(init, a, key, k);
        NewKeyEmptyGroup(init, key, k);
      }
    }
  }
}
