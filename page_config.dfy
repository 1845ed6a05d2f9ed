/** The page registry: a fixed lookup from a page key to its kind and
    optional title and section. */
module PageConfig {
  import opened Text

  datatype PageKind = HomeKind | CategoryKind | StaticKind
  datatype Section = EditorialSection | NotesSection | DiarySection

  datatype PageEntry = PageEntry(kind: PageKind, title: Option<string>, section: Option<Section>)

  /** `pageConfig`. */
  const Registry: map<string, PageEntry> := map[
    "home" := PageEntry(HomeKind, None, None),
    "category" := PageEntry(CategoryKind, Some("Notes"), Some(NotesSection)),
    "abcd" := PageEntry(StaticKind, Some("ABCD"), None)
  ]

  /** `pageConfig[key]`: the entry, or nothing for any other key. */
  function Lookup(key: string): (r: Option<PageEntry>)
    ensures r.Some? <==> key in {"home", "category", "abcd"}
    ensures key == "home" ==> r == Some(PageEntry(HomeKind, None, None))
    ensures key == "category" ==> r == Some(PageEntry(CategoryKind, Some("Notes"), Some(NotesSection)))
    ensures key == "abcd" ==> r == Some(PageEntry(StaticKind, Some("ABCD"), None))
  {
    if key in Registry then Some(Registry[key]) else None
  }

  /** Only the category page names a section; the home page has no title. */
  lemma SectionOnlyOnCategory(key: string)
    requires Lookup(key).Some?
    ensures Lookup(key).value.section.Some? <==> Lookup(key).value.kind == CategoryKind
    ensures Lookup(key).value.title.None? <==> Lookup(key).value.kind == HomeKind
  {
  }
}
