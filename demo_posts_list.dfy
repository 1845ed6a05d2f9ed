/** The demo posts list: the mock articles filtered by section and status
    and shown newest first, with a count and an empty message. The instant
    `new Date(date).getTime()` gives is a parameter. */
module DemoPostsList {
  import opened Lists
  import opened Ordering
  import opened MockData

  const AllChoice: string := "All"

  /** The filter callback: a section of "All" or the article's, and a status
      of "All" or the article's. */
  predicate Keeps(section: string, status: string, a: Article) {
    (section == AllChoice || a.section == section) && (status == AllChoice || a.status == status)
  }

  /** `filteredPosts`: exactly the articles both filters keep, in order. */
  function FilteredPosts(articles: seq<Article>, section: string, status: string): (r: seq<Article>)
    ensures forall a :: a in r <==> a in articles && Keeps(section, status, a)
    ensures IsSubsequence(r, articles)
  {
    FilterIsSubsequence(articles, (a: Article) => Keeps(section, status, a));
    Filter(articles, (a: Article) => Keeps(section, status, a))
  }

  /** With both filters on "All" every article is listed, in order. */
  lemma AllAllKeepsEverything(articles: seq<Article>)
    ensures FilteredPosts(articles, AllChoice, AllChoice) == articles
  {
    FilterAll(articles, (a: Article) => Keeps(AllChoice, AllChoice, a));
  }

  /** `sortedPosts`: the filtered articles, newest first; the built-in sort
      is stable, so articles of the same instant keep their order. */
  function SortedPosts(articles: seq<Article>, section: string, status: string, time: string -> int): (r: seq<Article>)
    ensures multiset(r) == multiset(FilteredPosts(articles, section, status))
    ensures forall i, j :: 0 <= i < j < |r| ==> time(r[i].date) >= time(r[j].date)
  {
    var r := SortBy(FilteredPosts(articles, section, status), (a: Article) => -time(a.date));
    assert SortedBy(r, (a: Article) => -time(a.date));
    r
  }

  /** A filtered list already newest first is shown as it is. */
  lemma AlreadyNewestFirst(articles: seq<Article>, section: string, status: string, time: string -> int)
    requires SortedBy(FilteredPosts(articles, section, status), (a: Article) => -time(a.date))
    ensures SortedPosts(articles, section, status, time) == FilteredPosts(articles, section, status)
  {
    SortSorted(FilteredPosts(articles, section, status), (a: Article) => -time(a.date));
  }

  /** What the results line and the empty state show. */
  datatype Summary = Summary(count: int, noun: string, showEmpty: bool)

  /** The count of the sorted list, "post" for one and "posts" otherwise,
      and the empty message exactly when there is nothing to list. */
  function SummaryOf(sorted: seq<Article>): (r: Summary)
    ensures r.count == |sorted|
    ensures r.noun == "post" <==> |sorted| == 1
    ensures r.noun == "posts" <==> |sorted| != 1
    ensures r.showEmpty <==> sorted == []
  {
    Summary(|sorted|, if |sorted| == 1 then "post" else "posts", |sorted| == 0)
  }
}
