/** The client-side navigation of the two single-page shells: the Next.js
    page (`src/app/page.tsx`) and the older Vite app (`src/App.tsx`). Both
    keep the current page, the current article id and an authentication
    flag; the Vite app knows fewer pages. `parseInt` is a parameter. */
module Navigation {
  import opened Text

  datatype Page =
    | Home | Editorial | Notes | Diary | Gallery | Archive | About | Article
    | LoginPage | Dashboard | Posts | NewPost | EditPost | GalleryManager | CategoryManager

  /** Which shell: the Next.js page or the Vite app. */
  datatype Shell = NextPage | ViteApp

  /** The pages a shell's `Page` type allows. */
  function Pages(shell: Shell): (r: set<Page>)
    ensures shell == ViteApp ==> Gallery !in r && GalleryManager !in r && CategoryManager !in r
  {
    var common := {Home, Editorial, Notes, Diary, Archive, About, Article, LoginPage, Dashboard, Posts, NewPost, EditPost};
    if shell == NextPage then common + {Gallery, GalleryManager, CategoryManager} else common
  }

  /** The pages only an authenticated user sees. */
  function AdminPages(shell: Shell): (r: set<Page>)
    ensures r <= Pages(shell)
    ensures LoginPage !in r
  {
    var common := {Dashboard, Posts, NewPost, EditPost};
    if shell == NextPage then common + {GalleryManager, CategoryManager} else common
  }

  /** The `pageMap` literal of `handleNavigate`. */
  function PageMap(shell: Shell): map<string, Page> {
    var common := map[
      "home" := Home, "editorial" := Editorial, "notes" := Notes, "diary" := Diary,
      "archive" := Archive, "about" := About, "dashboard" := Dashboard, "posts" := Posts,
      "new-post" := NewPost];
    if shell == NextPage then
      common + map["gallery" := Gallery, "gallery-manager" := GalleryManager, "category-manager" := CategoryManager]
    else common
  }

  /** The Vite app's map is the Next.js page's map without its three
      gallery and category entries. */
  lemma ViteMapIsNextMapWithoutGallery()
    ensures PageMap(ViteApp) == PageMap(NextPage) - {"gallery", "gallery-manager", "category-manager"}
  {
  }

  /** The Vite app has no gallery pages: asking for one goes home. */
  lemma ViteHasNoGallery()
    ensures "gallery" !in PageMap(ViteApp) && "gallery-manager" !in PageMap(ViteApp)
    ensures "category-manager" !in PageMap(ViteApp)
  {
  }

  /** The article id state: `null`, a number, or the `NaN` that `parseInt`
      yields for text without leading digits. */
  datatype ArticleId = NoArticle | Number(value: int) | NotANumber

  const EditPrefix: string := "edit-post-"

  /** `parseInt` on the text after the prefix (`None` for `NaN`). */
  function ParsedId(target: string, parseInt: string -> Option<int>): (r: ArticleId)
    requires StartsWith(target, EditPrefix)
    ensures r != NoArticle
    ensures r.Number? <==> parseInt(target[|EditPrefix|..]).Some?
    ensures r.Number? ==> parseInt(target[|EditPrefix|..]) == Some(r.value)
  {
    match parseInt(target[|EditPrefix|..])
    case Some(n) => Number(n)
    case None => NotANumber
  }

  /** What is shown: the login form, an admin screen, or a public page. */
  datatype View = LoginView | AdminView(page: Page) | PublicView(page: Page)

  /** The render: the login page and, while not authenticated, every admin
      page show the login form. */
  function Rendered(shell: Shell, page: Page, authenticated: bool): (v: View)
    ensures page == LoginPage ==> v == LoginView
    ensures page in AdminPages(shell) ==> v == (if authenticated then AdminView(page) else LoginView)
    ensures page != LoginPage && page !in AdminPages(shell) ==> v == PublicView(page)
    ensures !authenticated ==> !v.AdminView?
  {
    if page == LoginPage then LoginView
    else if page in AdminPages(shell) then (if authenticated then AdminView(page) else LoginView)
    else PublicView(page)
  }

  /** `parseInt` reads only the text after the prefix. */
  lemma ParsedIdOfSuffix(rest: string, parseInt: string -> Option<int>)
    ensures StartsWith(EditPrefix + rest, EditPrefix)
    ensures ParsedId(EditPrefix + rest, parseInt) == if parseInt(rest).Some? then Number(parseInt(rest).value) else NotANumber
  {
    assert (EditPrefix + rest)[..|EditPrefix|] == EditPrefix;
    assert (EditPrefix + rest)[|EditPrefix|..] == rest;
  }

  /** Whether the article page shows an article: only with a truthy id, so
      not with `null`, `NaN` or 0. */
  function ArticleShown(page: Page, articleId: ArticleId): (r: bool)
    ensures r ==> page == Article && articleId.Number?
    ensures page == Article && articleId.Number? && articleId.value != 0 ==> r
    ensures articleId == Number(0) ==> !r
  {
    page == Article && articleId.Number? && articleId.value != 0
  }

  class Navigator {
    const shell: Shell
    var page: Page
    var articleId: ArticleId
    var authenticated: bool

    /** Every page the state holds is one of the shell's pages. */
    ghost predicate Valid()
      reads this
    {
      page in Pages(shell)
    }

    constructor (shell: Shell)
      ensures this.shell == shell && Valid()
      ensures page == Home && articleId == NoArticle && !authenticated
    {
      this.shell := shell;
      page := Home;
      articleId := NoArticle;
      authenticated := false;
    }

    /** `handleNavigate`: "admin" opens the dashboard or the login form;
        "edit-post-<n>" opens the editor on article `n`; any other string
        goes through `pageMap`, and an unknown one goes home. */
    method HandleNavigate(target: string, parseInt: string -> Option<int>)
      requires Valid()
      modifies this
      ensures Valid() && authenticated == old(authenticated)
      ensures target == "admin" ==>
        page == (if authenticated then Dashboard else LoginPage) && articleId == old(articleId)
      ensures target != "admin" && StartsWith(target, EditPrefix) ==>
        page == EditPost && articleId == ParsedId(target, parseInt)
      ensures target != "admin" && !StartsWith(target, EditPrefix) ==>
        articleId == old(articleId)
        && page == (if target in PageMap(shell) then PageMap(shell)[target] else Home)
    {
      if target == "admin" {
        if authenticated {
          page := Dashboard;
        } else {
          page := LoginPage;
        }
        return;
      }
      if StartsWith(target, EditPrefix) {
        articleId := ParsedId(target, parseInt);
        page := EditPost;
        return;
      }
      var pageMap := PageMap(shell);
      page := if target in pageMap then pageMap[target] else Home;
    }

    /** `handleReadArticle`. */
    method HandleReadArticle(id: int)
      requires Valid()
      modifies this
      ensures Valid()
      ensures page == Article && articleId == Number(id) && authenticated == old(authenticated)
      ensures ArticleShown(page, articleId) <==> id != 0
    {
      articleId := Number(id);
      page := Article;
    }

    /** `handleBackToHome`. */
    method HandleBackToHome()
      requires Valid()
      modifies this
      ensures Valid()
      ensures page == Home && articleId == NoArticle && authenticated == old(authenticated)
    {
      page := Home;
      articleId := NoArticle;
    }

    /** `handleLogin`. */
    method HandleLogin()
      requires Valid()
      modifies this
      ensures Valid()
      ensures authenticated && page == Dashboard && articleId == old(articleId)
      ensures Rendered(shell, page, authenticated) == AdminView(Dashboard)
    {
      authenticated := true;
      page := Dashboard;
    }

    /** `handleLogout`. */
    method HandleLogout()
      requires Valid()
      modifies this
      ensures Valid()
      ensures !authenticated && page == Home && articleId == old(articleId)
    {
      authenticated := false;
      page := Home;
    }

    /** `handleSavePost`: back to the post list. */
    method HandleSavePost()
      requires Valid()
      modifies this
      ensures Valid()
      ensures page == Posts && articleId == old(articleId) && authenticated == old(authenticated)
    {
      page := Posts;
    }
  }

  /** Navigation never reaches an admin screen without logging in: from a
      logged-out state, any target renders the login form or a public page. */
  lemma NoAdminWithoutLogin(shell: Shell, page: Page)
    ensures !Rendered(shell, page, false).AdminView?
  {
  }

  /** The strings that name no page of the map, including "login",
      "article" and "edit-post", go home. */
  lemma UnknownTargetsGoHome(shell: Shell, target: string)
    requires target == "login" || target == "article" || target == "edit-post"
    ensures !StartsWith(target, EditPrefix) && target != "admin"
    ensures target !in PageMap(shell)
  {
    assert |target| < |EditPrefix|;
  }

  /** The map names only pages of the shell, and never the login page,
      the editor or the article page, which need their own handlers. */
  lemma PageMapTargets(shell: Shell, target: string)
    requires target in PageMap(shell)
    ensures PageMap(shell)[target] in Pages(shell)
    ensures PageMap(shell)[target] !in {LoginPage, EditPost, Article}
  {
  }
}
