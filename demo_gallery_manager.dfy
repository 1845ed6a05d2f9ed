/** The demo gallery manager: the mock images held in component state,
    filtered by category, shown twelve to a page, with adding (at the front)
    and deleting. Nothing is persisted; `Date.now()`, today's date and the
    confirmation dialog's answer are parameters. */
module DemoGalleryManager {
  import opened Text
  import opened Lists
  import opened GalleryData

  const ImagesPerPage: nat := 12
  const AllCategories: string := "All"
  const DefaultCategory: string := "Miscellaneous"

  /** `filteredImages`: every image for "All", else exactly the images of
      the category, in order. */
  function FilteredImages(images: seq<GalleryImage>, selected: string): (r: seq<GalleryImage>)
    ensures selected == AllCategories ==> r == images
    ensures selected != AllCategories ==> forall img :: img in r <==> img in images && img.category == selected
    ensures IsSubsequence(r, images)
  {
    if selected == AllCategories then
      SubsequenceRefl(images);
      images
    else GetGalleryImagesByCategory(images, selected)
  }

  /** `Math.ceil(count / 12)`: the fewest pages of twelve that hold
      `count` images. */
  function TotalPages(count: nat): (r: nat)
    ensures r * ImagesPerPage >= count
    ensures r > 0 ==> (r - 1) * ImagesPerPage < count
    ensures r == 0 <==> count == 0
  {
    (count + ImagesPerPage - 1) / ImagesPerPage
  }

  /** `currentImages`: the slice from `(page - 1) * 12` to twelve past it. */
  function CurrentImages(filtered: seq<GalleryImage>, page: int): (r: seq<GalleryImage>)
    ensures |r| <= ImagesPerPage
    ensures page >= 1 && r != [] ==> (page - 1) * ImagesPerPage + |r| <= |filtered|
    ensures page >= 1 ==> forall k :: 0 <= k < |r| ==> r[k] == filtered[(page - 1) * ImagesPerPage + k]
    ensures 1 <= page <= TotalPages(|filtered|) ==> r != []
  {
    var start := (page - 1) * ImagesPerPage;
    Slice(filtered, start, start + ImagesPerPage)
  }

  /** Every filtered image is shown on page `i / 12 + 1`, at place `i % 12`. */
  lemma EveryImageOnItsPage(filtered: seq<GalleryImage>, i: nat)
    requires i < |filtered|
    ensures 1 <= i / ImagesPerPage + 1 <= TotalPages(|filtered|)
    ensures i % ImagesPerPage < |CurrentImages(filtered, i / ImagesPerPage + 1)|
    ensures CurrentImages(filtered, i / ImagesPerPage + 1)[i % ImagesPerPage] == filtered[i]
  {
    var page := i / ImagesPerPage + 1;
    var start := (page - 1) * ImagesPerPage;
    assert start + i % ImagesPerPage == i;
    assert start <= i < |filtered|;
  }

  /** The previous button is disabled on the first page. */
  predicate PrevDisabled(page: int) {
    page == 1
  }

  /** The next button is disabled on the last page. */
  predicate NextDisabled(page: int, totalPages: nat) {
    page == totalPages
  }

  /** The page controls show only when there is more than one page. */
  predicate ShowPagination(totalPages: nat) {
    totalPages > 1
  }

  /** The new-image form; `Partial<GalleryImage>` with every field set. */
  datatype Draft = Draft(url: string, caption: string, location: string, category: string, date: string)

  /** The form as it opens and after an add: empty, category
      "Miscellaneous", today's date. */
  function BlankDraft(today: string): (d: Draft)
    ensures d.url == "" && d.caption == "" && d.location == ""
    ensures d.category == DefaultCategory && d.date == today
  {
    Draft("", "", "", DefaultCategory, today)
  }

  /** Which form field an input edits. */
  datatype DraftField = UrlField | CaptionField | LocationField | CategoryField

  class GalleryManager {
    var images: seq<GalleryImage>
    var isAdding: bool
    var selectedCategory: string
    var currentPage: int
    var newImage: Draft

    /** Pages are counted from 1. */
    ghost predicate Valid()
      reads this
    {
      currentPage >= 1
    }

    constructor (initial: seq<GalleryImage>, today: string)
      ensures Valid()
      ensures images == initial && !isAdding && selectedCategory == AllCategories
      ensures currentPage == 1 && newImage == BlankDraft(today)
    {
      images := initial;
      isAdding := false;
      selectedCategory := AllCategories;
      currentPage := 1;
      newImage := BlankDraft(today);
    }

    /** `handleCategoryChange`: select and go back to page 1. */
    method HandleCategoryChange(category: string)
      requires Valid()
      modifies this
      ensures Valid()
      ensures selectedCategory == category && currentPage == 1
      ensures images == old(images) && isAdding == old(isAdding) && newImage == old(newImage)
    {
      selectedCategory := category;
      currentPage := 1;
    }

    /** An input of the form edits one field of the draft. */
    method EditDraft(field: DraftField, value: string)
      requires Valid()
      modifies this
      ensures Valid()
      ensures newImage == match field
        case UrlField => old(newImage).(url := value)
        case CaptionField => old(newImage).(caption := value)
        case LocationField => old(newImage).(location := value)
        case CategoryField => old(newImage).(category := value)
      ensures images == old(images) && isAdding == old(isAdding)
      ensures selectedCategory == old(selectedCategory) && currentPage == old(currentPage)
    {
      match field {
        case UrlField => newImage := newImage.(url := value);
        case CaptionField => newImage := newImage.(caption := value);
        case LocationField => newImage := newImage.(location := value);
        case CategoryField => newImage := newImage.(category := value);
      }
    }

    /** Opening or closing the form. */
    method SetAdding(adding: bool)
      requires Valid()
      modifies this
      ensures Valid()
      ensures isAdding == adding
      ensures images == old(images) && newImage == old(newImage)
      ensures selectedCategory == old(selectedCategory) && currentPage == old(currentPage)
    {
      isAdding := adding;
    }

    /** `handleAddImage`: without a URL nothing changes; otherwise one image
        with id `now` is put in front, the form closes and is cleared. */
    method HandleAddImage(now: int, today: string)
      requires Valid()
      modifies this
      ensures Valid()
      ensures old(newImage.url) == "" ==>
        images == old(images) && isAdding == old(isAdding) && newImage == old(newImage)
      ensures old(newImage.url) != "" ==>
        && images == [GalleryImage(now, old(newImage.url), Some(old(newImage.caption)), old(newImage.date),
                                   Some(old(newImage.location)), old(newImage.category))] + old(images)
        && !isAdding && newImage == BlankDraft(today)
      ensures selectedCategory == old(selectedCategory) && currentPage == old(currentPage)
    {
      if newImage.url == "" {
        return;
      }
      var image := GalleryImage(now, newImage.url, Some(newImage.caption), newImage.date,
                                Some(newImage.location), newImage.category);
      images := [image] + images;
      isAdding := false;
      newImage := BlankDraft(today);
    }

    /** `handleDeleteImage`: once confirmed, the images with that id go and
        the rest keep their order. */
    method HandleDeleteImage(id: int, confirmed: bool)
      requires Valid()
      modifies this
      ensures Valid()
      ensures confirmed ==> images == Filter(old(images), (img: GalleryImage) => img.id != id)
      ensures confirmed ==> (forall img :: img in images <==> img in old(images) && img.id != id)
                            && IsSubsequence(images, old(images))
      ensures !confirmed ==> images == old(images)
      ensures isAdding == old(isAdding) && newImage == old(newImage)
      ensures selectedCategory == old(selectedCategory) && currentPage == old(currentPage)
    {
      if confirmed {
        FilterIsSubsequence(images, (img: GalleryImage) => img.id != id);
        images := Filter(images, (img: GalleryImage) => img.id != id);
      }
    }

    /** The number of pages of the current filter. */
    function Pages(): (r: nat)
      reads this
      ensures r == 0 <==> FilteredImages(images, selectedCategory) == []
    {
      TotalPages(|FilteredImages(images, selectedCategory)|)
    }

    /** A click on the previous button; it does nothing while the controls
        are hidden or the button is disabled. */
    method PreviousPage()
      requires Valid()
      modifies this
      ensures Valid()
      ensures currentPage == (if ShowPagination(Pages()) && !PrevDisabled(old(currentPage))
                              then old(currentPage) - 1 else old(currentPage))
      ensures 1 <= old(currentPage) <= Pages() ==> 1 <= currentPage <= Pages()
      ensures images == old(images) && selectedCategory == old(selectedCategory)
      ensures isAdding == old(isAdding) && newImage == old(newImage)
    {
      if ShowPagination(Pages()) && !PrevDisabled(currentPage) {
        currentPage := currentPage - 1;
      }
    }

    /** A click on the next button; it does nothing while the controls are
        hidden or the button is disabled. */
    method NextPage()
      requires Valid()
      modifies this
      ensures Valid()
      ensures currentPage == (if ShowPagination(Pages()) && !NextDisabled(old(currentPage), Pages())
                              then old(currentPage) + 1 else old(currentPage))
      ensures 1 <= old(currentPage) <= Pages() ==> 1 <= currentPage <= Pages()
      ensures images == old(images) && selectedCategory == old(selectedCategory)
      ensures isAdding == old(isAdding) && newImage == old(newImage)
    {
      if ShowPagination(Pages()) && !NextDisabled(currentPage, Pages()) {
        currentPage := currentPage + 1;
      }
    }
  }

  /** Deleting images can leave the page past the last one, where the
      next button stays enabled: the page keeps its number and shows
      nothing. */
  lemma PastTheLastPage(filtered: seq<GalleryImage>, page: int)
    requires page > TotalPages(|filtered|) && page >= 1
    ensures CurrentImages(filtered, page) == []
    ensures !NextDisabled(page, TotalPages(|filtered|))
  {
  }
}
