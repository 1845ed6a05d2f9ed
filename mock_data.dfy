/** The mock newsroom: a constant list of sixteen articles and the queries
    the public pages run over it. The long text fields (excerpt, body,
    cover image) and the title and author, which no query looks at, are not
    part of this model. The queries take the article list as a parameter;
    the pages pass `AllArticles`. */
module MockData {
  import opened Text
  import opened Lists

  datatype Article = Article(
    id: int,
    section: string,
    date: string,
    status: string,
    featured: bool,
    showOnFrontPage: bool)

  /** `allArticles`; only the first is featured (the others leave the field
      out, which reads as false). */
  const AllArticles: seq<Article> := [
    Article(1, "Editorial", "December 14, 2025", "published", true, true),
    Article(2, "Editorial", "December 13, 2025", "published", false, true),
    Article(3, "Editorial", "December 12, 2025", "published", false, true),
    Article(4, "Editorial", "December 10, 2025", "published", false, false),
    Article(5, "Notes", "December 11, 2025", "published", false, true),
    Article(6, "Notes", "December 9, 2025", "published", false, true),
    Article(7, "Notes", "December 8, 2025", "published", false, true),
    Article(8, "Notes", "December 6, 2025", "published", false, false),
    Article(9, "Diary", "December 14, 2025", "published", false, true),
    Article(10, "Diary", "December 12, 2025", "published", false, true),
    Article(11, "Diary", "December 7, 2025", "published", false, true),
    Article(12, "Diary", "December 5, 2025", "published", false, true),
    Article(13, "Diary", "December 3, 2025", "published", false, true),
    Article(14, "Editorial", "December 5, 2025", "published", false, false),
    Article(15, "Notes", "December 4, 2025", "published", false, false),
    Article(16, "Notes", "December 2, 2025", "published", false, false)
  ]

  const DefaultLatestLimit: int := 4
  const DefaultPicksLimit: int := 3
  const DefaultNotesLimit: int := 3
  const DefaultDiaryLimit: int := 5

  /** Ids of the literal are 1..16 in order, hence distinct. */
  lemma IdsAreIndices()
    ensures |AllArticles| == 16
    ensures forall k :: 0 <= k < |AllArticles| ==> AllArticles[k].id == k + 1
  {
  }

  /** Every article of the literal is published. */
  lemma AllPublished()
    ensures forall k :: 0 <= k < |AllArticles| ==> AllArticles[k].status == "published"
  {
  }

  /** Only the first article of the literal is featured. */
  lemma OnlyFirstFeatured()
    ensures AllArticles[0].featured && AllArticles[0].showOnFrontPage
    ensures forall k :: 0 < k < |AllArticles| ==> !AllArticles[k].featured
  {
  }

  /** `getFeaturedArticle`: the first article both featured and shown on
      the front page. */
  function GetFeaturedArticle(articles: seq<Article>): (r: Option<Article>)
    ensures r.Some? <==> exists k :: 0 <= k < |articles| && articles[k].featured && articles[k].showOnFrontPage
    ensures r.Some? ==> r.value.featured && r.value.showOnFrontPage
    ensures r.Some? ==> exists k :: (0 <= k < |articles| && articles[k] == r.value
      && forall j :: 0 <= j < k ==> !(articles[j].featured && articles[j].showOnFrontPage))
  {
    Find(articles, (a: Article) => a.featured && a.showOnFrontPage)
  }

  /** The featured article of the literal is its first. */
  lemma FeaturedIsFirst()
    ensures GetFeaturedArticle(AllArticles) == Some(AllArticles[0])
  {
    OnlyFirstFeatured();
    FindUnique(AllArticles, (a: Article) => a.featured && a.showOnFrontPage, 0);
  }

  /** `filter(keep).slice(0, limit)`: at most `limit` articles that
      satisfy `keep`, in the list's order. */
  function FrontPageQuery(articles: seq<Article>, keep: Article -> bool, limit: int): (r: seq<Article>)
    ensures limit >= 0 ==> |r| <= limit
    ensures forall k :: 0 <= k < |r| ==> keep(r[k])
    ensures IsSubsequence(r, articles)
    ensures r == SliceTo(Filter(articles, keep), limit)
  {
    var all := Filter(articles, keep);
    FilterIsSubsequence(articles, keep);
    PrefixSubsequence(all, articles, |SliceTo(all, limit)|);
    SliceTo(all, limit)
  }

  /** `getLatestArticles(limit = 4)`. */
  function GetLatestArticles(articles: seq<Article>, limit: Option<int>): (r: seq<Article>)
    ensures limit.GetOr(DefaultLatestLimit) >= 0 ==> |r| <= limit.GetOr(DefaultLatestLimit)
    ensures forall k :: 0 <= k < |r| ==>
      !r[k].featured && r[k].showOnFrontPage && r[k].status == "published"
    ensures IsSubsequence(r, articles)
  {
    FrontPageQuery(articles, (a: Article) => !a.featured && a.showOnFrontPage && a.status == "published",
                   limit.GetOr(DefaultLatestLimit))
  }

  /** `getEditorialPicks(limit = 3)`: editorial, on the front page, not featured. */
  function GetEditorialPicks(articles: seq<Article>, limit: Option<int>): (r: seq<Article>)
    ensures limit.GetOr(DefaultPicksLimit) >= 0 ==> |r| <= limit.GetOr(DefaultPicksLimit)
    ensures forall k :: 0 <= k < |r| ==>
      r[k].section == "Editorial" && r[k].showOnFrontPage && !r[k].featured
    ensures IsSubsequence(r, articles)
  {
    FrontPageQuery(articles, (a: Article) => a.section == "Editorial" && a.showOnFrontPage && !a.featured,
                   limit.GetOr(DefaultPicksLimit))
  }

  /** `getNotesArticles(limit = 3)`. */
  function GetNotesArticles(articles: seq<Article>, limit: Option<int>): (r: seq<Article>)
    ensures limit.GetOr(DefaultNotesLimit) >= 0 ==> |r| <= limit.GetOr(DefaultNotesLimit)
    ensures forall k :: 0 <= k < |r| ==> r[k].section == "Notes" && r[k].showOnFrontPage
    ensures IsSubsequence(r, articles)
  {
    FrontPageQuery(articles, (a: Article) => a.section == "Notes" && a.showOnFrontPage,
                   limit.GetOr(DefaultNotesLimit))
  }

  /** `getDiaryEntries(limit = 5)`. */
  function GetDiaryEntries(articles: seq<Article>, limit: Option<int>): (r: seq<Article>)
    ensures limit.GetOr(DefaultDiaryLimit) >= 0 ==> |r| <= limit.GetOr(DefaultDiaryLimit)
    ensures forall k :: 0 <= k < |r| ==> r[k].section == "Diary" && r[k].showOnFrontPage
    ensures IsSubsequence(r, articles)
  {
    FrontPageQuery(articles, (a: Article) => a.section == "Diary" && a.showOnFrontPage,
                   limit.GetOr(DefaultDiaryLimit))
  }

  /** `getArticlesBySection`: exactly the published articles of the
      section, in the literal's order. */
  function GetArticlesBySection(articles: seq<Article>, section: string): (r: seq<Article>)
    ensures forall a :: a in r <==> a in articles && a.section == section && a.status == "published"
    ensures IsSubsequence(r, articles)
  {
    FilterIsSubsequence(articles, (a: Article) => a.section == section && a.status == "published");
    Filter(articles, (a: Article) => a.section == section && a.status == "published")
  }

  /** `getArticleById`: the first article with that id. */
  function GetArticleById(articles: seq<Article>, id: int): (r: Option<Article>)
    ensures r.Some? ==> r.value in articles && r.value.id == id
    ensures r.None? ==> forall k :: 0 <= k < |articles| ==> articles[k].id != id
  {
    Find(articles, (a: Article) => a.id == id)
  }

  /** Ids 1..16 find the article at that position; any other id nothing. */
  lemma ArticleById(id: int)
    ensures 1 <= id <= 16 ==> GetArticleById(AllArticles, id) == Some(AllArticles[id - 1])
    ensures !(1 <= id <= 16) ==> GetArticleById(AllArticles, id).None?
  {
    IdsAreIndices();
    if 1 <= id <= 16 {
      FindUnique(AllArticles, (a: Article) => a.id == id, id - 1);
    }
  }

  /** `getAllPublishedArticles`. */
  function GetAllPublishedArticles(articles: seq<Article>): (r: seq<Article>)
    ensures forall a :: a in r <==> a in articles && a.status == "published"
    ensures IsSubsequence(r, articles)
  {
    FilterIsSubsequence(articles, (a: Article) => a.status == "published");
    Filter(articles, (a: Article) => a.status == "published")
  }

  /** `getAllDrafts`. */
  function GetAllDrafts(articles: seq<Article>): (r: seq<Article>)
    ensures forall a :: a in r <==> a in articles && a.status == "draft"
    ensures IsSubsequence(r, articles)
  {
    FilterIsSubsequence(articles, (a: Article) => a.status == "draft");
    Filter(articles, (a: Article) => a.status == "draft")
  }

  /** Published articles and drafts split the articles of those two
      statuses: each is in exactly one list. */
  lemma PublishedAndDraftsPartition(articles: seq<Article>, a: Article)
    requires a in articles && (a.status == "published" || a.status == "draft")
    ensures (a in GetAllPublishedArticles(articles)) != (a in GetAllDrafts(articles))
  {
  }

  /** With every article published, as in the literal, there are no
      drafts and the published list is the whole list. */
  lemma NoDrafts(articles: seq<Article>)
    requires forall k :: 0 <= k < |articles| ==> articles[k].status == "published"
    ensures GetAllDrafts(articles) == []
    ensures GetAllPublishedArticles(articles) == articles
  {
    FilterAll(articles, (a: Article) => a.status == "published");
    FilterNone(articles, (a: Article) => a.status == "draft");
  }
}
