/** `GET /api/categories`: dispatch on the `type` query parameter. */
module CategoriesRoute {
  import opened Text
  import opened CategoryData

  const TypeError: string := "type must be 'gallery' or 'blog'"

  /** The JSON response: a list of categories, or an error with its
      status. */
  datatype Response = CategoryList(categories: seq<Category>) | ErrorResponse(status: int, error: string)

  /** `GET`: "gallery" or "blog" give that list; any other non-empty value
      is a 400; a missing or empty parameter gives both lists, gallery
      first. `type` is the parameter as `searchParams.get` returns it. */
  function Get(kind: Option<string>): (r: Response)
    ensures kind == Some(GalleryKind) ==> r == CategoryList(GalleryCategories)
    ensures kind == Some(BlogKind) ==> r == CategoryList(BlogCategories)
    ensures kind.Some? && kind.value != "" && kind.value != GalleryKind && kind.value != BlogKind ==>
      r == ErrorResponse(400, TypeError)
    ensures kind.None? || kind.value == "" ==> r == CategoryList(GalleryCategories + BlogCategories)
  {
    if kind.Some? && (kind.value == GalleryKind || kind.value == BlogKind) then
      CategoryList(GetCategoriesByType(kind.value))
    else if kind.Some? && kind.value != "" then
      ErrorResponse(400, TypeError)
    else
      CategoryList(GalleryCategories + BlogCategories)
  }

  /** A typed success never holds a category of the other kind. */
  lemma TypedResponseIsPure(kind: string)
    requires kind == GalleryKind || kind == BlogKind
    ensures Get(Some(kind)).CategoryList?
    ensures forall c :: c in Get(Some(kind)).categories ==> c.kind == kind
  {
    ListsAreConsistent();
  }
}
