/** The fixed category lists: six gallery categories and three blog
    sections, and the lookups over them. */
module CategoryData {
  import opened Text
  import opened Lists

  datatype Category = Category(id: int, name: string, slug: string, description: Option<string>, kind: string)

  const GalleryKind: string := "gallery"
  const BlogKind: string := "blog"

  /** `galleryCategories`. */
  const GalleryCategories: seq<Category> := [
    Category(1, "Travel", "travel", Some("Travel and destinations"), "gallery"),
    Category(2, "Nature", "nature", Some("Natural landscapes and wildlife"), "gallery"),
    Category(3, "Urban", "urban", Some("City life and architecture"), "gallery"),
    Category(4, "People", "people", Some("Portraits and people"), "gallery"),
    Category(5, "Events", "events", Some("Special occasions and gatherings"), "gallery"),
    Category(6, "Miscellaneous", "miscellaneous", Some("Everything else"), "gallery")
  ]

  /** `blogCategories`, the sections. */
  const BlogCategories: seq<Category> := [
    Category(101, "Editorial", "editorial", Some("Long-form analysis and commentary"), "blog"),
    Category(102, "Notes", "notes", Some("Quick thoughts and observations"), "blog"),
    Category(103, "Diary", "diary", Some("Personal reflections and daily entries"), "blog")
  ]

  /** Every category carries the kind of the list it belongs to, and the
      ids are 1..6 and 101..103. */
  lemma ListsAreConsistent()
    ensures |GalleryCategories| == 6 && |BlogCategories| == 3
    ensures forall k :: 0 <= k < 6 ==> GalleryCategories[k].kind == GalleryKind && GalleryCategories[k].id == k + 1
    ensures forall k :: 0 <= k < 3 ==> BlogCategories[k].kind == BlogKind && BlogCategories[k].id == k + 101
  {
  }

  /** `getCategoriesByType`: the gallery list for "gallery", the blog list
      for anything else. */
  function GetCategoriesByType(kind: string): (r: seq<Category>)
    ensures kind == GalleryKind ==> |r| == 6 && forall k :: 0 <= k < |r| ==> r[k].kind == GalleryKind
    ensures kind != GalleryKind ==> |r| == 3 && forall k :: 0 <= k < |r| ==> r[k].kind == BlogKind
    ensures r == GalleryCategories || r == BlogCategories
  {
    ListsAreConsistent();
    if kind == GalleryKind then GalleryCategories else BlogCategories
  }

  /** `getCategoryById`: the first category with that id, gallery first. */
  function GetCategoryById(id: int): (r: Option<Category>)
    ensures r.Some? ==> r.value.id == id && r.value in GalleryCategories + BlogCategories
    ensures r.None? ==> forall c :: c in GalleryCategories + BlogCategories ==> c.id != id
  {
    Find(GalleryCategories + BlogCategories, (c: Category) => c.id == id)
  }

  /** Ids are distinct across both lists, so an id names at most one
      category: 1..6 a gallery one, 101..103 a blog one. */
  lemma CategoryIdsDistinct(id: int)
    ensures 1 <= id <= 6 ==> GetCategoryById(id) == Some(GalleryCategories[id - 1])
    ensures 101 <= id <= 103 ==> GetCategoryById(id) == Some(BlogCategories[id - 101])
    ensures !(1 <= id <= 6 || 101 <= id <= 103) ==> GetCategoryById(id).None?
  {
    ListsAreConsistent();
    var all := GalleryCategories + BlogCategories;
    assert forall k :: 0 <= k < 9 ==> all[k].id == (if k < 6 then k + 1 else k + 95);
    if 1 <= id <= 6 {
      FindUnique(all, (c: Category) => c.id == id, id - 1);
    } else if 101 <= id <= 103 {
      FindUnique(all, (c: Category) => c.id == id, id - 95);
    }
  }

  /** `getCategoryBySlug`: searches only the list of the requested kind. */
  function GetCategoryBySlug(slug: string, kind: string): (r: Option<Category>)
    ensures r.Some? ==> r.value.slug == slug && r.value in GetCategoriesByType(kind)
    ensures r.Some? ==> r.value.kind == (if kind == GalleryKind then GalleryKind else BlogKind)
    ensures r.None? ==> forall c :: c in GetCategoriesByType(kind) ==> c.slug != slug
  {
    Find(GetCategoriesByType(kind), (c: Category) => c.slug == slug)
  }

  /** The name of each category of a list, in order. */
  function Names(categories: seq<Category>): (r: seq<string>)
    ensures |r| == |categories|
    ensures forall k :: 0 <= k < |r| ==> r[k] == categories[k].name
  {
    seq(|categories|, k requires 0 <= k < |categories| => categories[k].name)
  }

  /** `getGalleryCategoryNames`: "All", then the gallery names in order. */
  function GetGalleryCategoryNames(): (r: seq<string>)
    ensures |r| == |GalleryCategories| + 1 && r[0] == "All"
    ensures forall k :: 0 <= k < |GalleryCategories| ==> r[k + 1] == GalleryCategories[k].name
  {
    ["All"] + Names(GalleryCategories)
  }

  /** `getBlogCategoryNames`. */
  function GetBlogCategoryNames(): (r: seq<string>)
    ensures |r| == |BlogCategories|
    ensures forall k :: 0 <= k < |r| ==> r[k] == BlogCategories[k].name
  {
    Names(BlogCategories)
  }

  /** The blog names are the three sections. */
  lemma BlogNamesAreSections()
    ensures GetBlogCategoryNames() == ["Editorial", "Notes", "Diary"]
  {
  }
}
