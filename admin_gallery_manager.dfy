/** The admin gallery manager: one page of the media library at a time
    (pages counted from 0), the category list for the forms, an upload form
    with a file mode and a URL mode, and an inline editor. Every call to the
    back end is a parameter carrying its outcome; the confirmation dialog's
    answer is a parameter too. */
module AdminGalleryManager {
  import opened Text
  import opened Lists

  const ImagesPerPage: nat := 12

  /** A media item as the back end lists it. */
  datatype Media = Media(
    id: string,
    url: string,
    title: Option<string>,
    alt: Option<string>,
    caption: Option<string>,
    location: Option<string>,
    category: Option<string>)

  /** One page of the library as `getAdminMedia` answers. */
  datatype MediaPage = MediaPage(content: seq<Media>, totalPages: int, totalElements: int)

  /** Each raw name, a missing one as "", trimmed. */
  function TrimAll(raw: seq<Option<string>>): (r: seq<string>)
    ensures |r| == |raw|
    ensures forall k :: 0 <= k < |r| ==> r[k] == Trim(raw[k].GetOr(""))
    ensures forall c :: c in r ==> IsTrimmed(c)
  {
    if raw == [] then [] else [Trim(raw[0].GetOr(""))] + TrimAll(raw[1..])
  }

  /** Keeps the non-empty names. */
  predicate NonEmpty(c: string) {
    c != ""
  }

  /** Names drawn from trimmed names, the empty one excluded, are
      non-empty and trimmed. */
  lemma KeptNamesAreClean(trimmed: seq<string>, r: seq<string>)
    requires forall c :: c in trimmed ==> IsTrimmed(c)
    requires forall c :: c in r <==> c in trimmed && c != ""
    ensures forall k :: 0 <= k < |r| ==> r[k] != "" && IsTrimmed(r[k])
  {
    forall k | 0 <= k < |r|
      ensures r[k] != "" && IsTrimmed(r[k])
    {
      assert r[k] in r;
    }
  }

  /** `loadCategories`: missing entries read as "", every name trimmed,
      empty names dropped, duplicates removed keeping the first, in the
      order of first occurrence. */
  function NormalizeCategories(items: Option<seq<Option<string>>>): (r: seq<string>)
    ensures Distinct(r)
    ensures forall k :: 0 <= k < |r| ==> r[k] != "" && IsTrimmed(r[k])
    ensures forall c :: c in r <==> c in TrimAll(items.GetOr([])) && c != ""
    ensures IsSubsequence(r, Filter(TrimAll(items.GetOr([])), NonEmpty))
    ensures forall i, j :: 0 <= i < j < |r| ==>
      r[i] in TrimAll(items.GetOr([])) && r[j] in TrimAll(items.GetOr([])) &&
      FirstIndex(TrimAll(items.GetOr([])), r[i]) < FirstIndex(TrimAll(items.GetOr([])), r[j])
  {
    var trimmed := TrimAll(items.GetOr([]));
    var kept := Filter(trimmed, NonEmpty);
    DedupIsSubsequence(kept);
    KeptNamesAreClean(trimmed, Dedup(kept));
    forall i, j | 0 <= i < j < |Dedup(kept)|
      ensures Dedup(kept)[i] in trimmed && Dedup(kept)[j] in trimmed
      ensures FirstIndex(trimmed, Dedup(kept)[i]) < FirstIndex(trimmed, Dedup(kept)[j])
    {
      DedupFirstOrder(kept, i, j);
      FilterKeepsFirstOrder(trimmed, NonEmpty, Dedup(kept)[i], Dedup(kept)[j]);
    }
    Dedup(kept)
  }

  /** The previous button: `Math.max(0, page - 1)`. */
  function PrevPage(page: int): (r: int)
    ensures r >= 0
    ensures page > 0 ==> r == page - 1
    ensures page <= 0 ==> r == 0
  {
    if page - 1 > 0 then page - 1 else 0
  }

  /** The next button: `Math.min(totalPages - 1, page + 1)`. */
  function NextPage(page: int, totalPages: int): (r: int)
    ensures r <= totalPages - 1
    ensures page + 1 <= totalPages - 1 ==> r == page + 1
  {
    if totalPages - 1 < page + 1 then totalPages - 1 else page + 1
  }

  /** Prev is disabled on page 0 and while loading. */
  predicate PrevDisabled(page: int, loading: bool) {
    page == 0 || loading
  }

  /** Next is disabled on the last page and while loading. */
  predicate NextDisabled(page: int, totalPages: int, loading: bool) {
    page >= totalPages - 1 || loading
  }

  /** The controls show only when there is more than one page. */
  predicate ShowPagination(totalPages: int) {
    totalPages > 1
  }

  /** With the controls shown, both buttons keep a page in range in range. */
  lemma PagingStaysInRange(page: int, totalPages: int)
    requires ShowPagination(totalPages) && 0 <= page < totalPages
    ensures 0 <= PrevPage(page) < totalPages
    ensures 0 <= NextPage(page, totalPages) < totalPages
    ensures !PrevDisabled(page, false) ==> PrevPage(page) == page - 1
    ensures !NextDisabled(page, totalPages, false) ==> NextPage(page, totalPages) == page + 1
  {
  }

  const PermissionMessage: string := "Bạn không có quyền xóa ảnh. Cần tài khoản ADMIN."
  const DeleteFailedMessage: string := "Không thể xóa ảnh. Vui lòng thử lại."
  const DeletedMessage: string := "Đã xóa ảnh thành công."
  const ForbiddenMarker: string := "API error 403"

  /** The alert after a failed delete: the permission message when the
      error mentions "API error 403", the generic one otherwise. */
  function DeleteErrorAlert(message: string): (r: string)
    ensures Contains(message, ForbiddenMarker) <==> r == PermissionMessage
    ensures !Contains(message, ForbiddenMarker) <==> r == DeleteFailedMessage
  {
    if Contains(message, ForbiddenMarker) then PermissionMessage else DeleteFailedMessage
  }

  /** The confirmation question: the caption, or "ảnh này" without one. */
  function ConfirmPrompt(caption: Option<string>): (r: string)
    ensures caption.Some? && caption.value != "" ==> r == "Xóa \"" + caption.value + "\"?"
    ensures caption.None? || caption.value == "" ==> r == "Xóa \"ảnh này\"?"
  {
    "Xóa \"" + (if caption.Some? && caption.value != "" then caption.value else "ảnh này") + "\"?"
  }

  /** How the form uploads. */
  datatype UploadMode = FileMode | UrlMode

  /** A chosen file, by name. */
  datatype File = File(name: string)

  /** The add form (`Partial<MediaUploadDto>`); no input sets the title. */
  datatype UploadDraft = UploadDraft(url: string, title: string, caption: string, location: string, category: Option<string>)

  const BlankUpload: UploadDraft := UploadDraft("", "", "", "", None)

  /** The upload the add handler sends: a file, with the title also as the
      alternative text, or a URL. */
  datatype UploadCall =
    | FileUpload(file: File, title: string, alt: string, caption: string, location: string, category: Option<string>)
    | UrlUpload(url: string, title: string, caption: string, location: string, category: Option<string>)

  /** The upload `handleAddImage` sends: none in file mode without a file
      or in URL mode without a URL; a file upload carries the title as its
      alternative text too. */
  function UploadFor(mode: UploadMode, file: Option<File>, draft: UploadDraft): (r: Option<UploadCall>)
    ensures r.None? <==> (mode == FileMode && file.None?) || (mode == UrlMode && draft.url == "")
    ensures r.Some? && mode == FileMode ==>
      r.value == FileUpload(file.value, draft.title, draft.title, draft.caption, draft.location, draft.category)
    ensures r.Some? && mode == UrlMode ==>
      r.value == UrlUpload(draft.url, draft.title, draft.caption, draft.location, draft.category)
  {
    match mode
    case FileMode =>
      if file.None? then None
      else Some(FileUpload(file.value, draft.title, draft.title, draft.caption, draft.location, draft.category))
    case UrlMode =>
      if draft.url == "" then None
      else Some(UrlUpload(draft.url, draft.title, draft.caption, draft.location, draft.category))
  }

  /** The edit form (`MediaUpdateDto`); `{}` is all `None`. */
  datatype EditData = EditData(title: Option<string>, alt: Option<string>, caption: Option<string>,
                               location: Option<string>, category: Option<string>)

  const EmptyEdit: EditData := EditData(None, None, None, None, None)

  /** `handleEditImage`'s copy: each field, a missing one as "". */
  function EditCopy(image: Media): (d: EditData)
    ensures d.title == Some(image.title.GetOr("")) && d.alt == Some(image.alt.GetOr(""))
    ensures d.caption == Some(image.caption.GetOr("")) && d.location == Some(image.location.GetOr(""))
    ensures d.category == Some(image.category.GetOr(""))
  {
    EditData(Some(image.title.GetOr("")), Some(image.alt.GetOr("")), Some(image.caption.GetOr("")),
             Some(image.location.GetOr("")), Some(image.category.GetOr("")))
  }

  /** The text inputs of the add form. */
  datatype UploadField = UrlInput | CaptionInput | LocationInput | CategoryInput

  /** The text inputs of the edit form. */
  datatype EditField = CaptionEdit | LocationEdit | CategoryEdit

  /** What a back-end round trip yielded: the reloaded page, or a throw. */
  datatype Reload = Reloaded(page: MediaPage) | Threw(message: string)

  class GalleryManager {
    var categories: seq<string>
    var images: seq<Media>
    var isAdding: bool
    var uploadMode: UploadMode
    var selectedFile: Option<File>
    var editingId: Option<string>
    var currentPage: int
    var totalPages: int
    var totalElements: int
    var loading: bool
    var newImage: UploadDraft
    var editData: EditData

    /** Category names are distinct, trimmed and non-empty. */
    ghost predicate Valid()
      reads this
    {
      Distinct(categories) && forall k :: 0 <= k < |categories| ==> categories[k] != "" && IsTrimmed(categories[k])
    }

    constructor ()
      ensures Valid()
      ensures categories == [] && images == [] && !isAdding && uploadMode == FileMode
      ensures selectedFile.None? && editingId.None? && currentPage == 0 && totalPages == 1
      ensures totalElements == 0 && loading && newImage == BlankUpload && editData == EmptyEdit
    {
      categories := [];
      images := [];
      isAdding := false;
      uploadMode := FileMode;
      selectedFile := None;
      editingId := None;
      currentPage := 0;
      totalPages := 1;
      totalElements := 0;
      loading := true;
      newImage := BlankUpload;
      editData := EmptyEdit;
    }

    /** `loadCategories` with what `getMediaCategories` answered; a failed
        call leaves the list as it was. */
    method LoadCategories(answer: Option<Option<seq<Option<string>>>>)
      requires Valid()
      modifies this
      ensures Valid()
      ensures categories == (if answer.Some? then NormalizeCategories(answer.value) else old(categories))
      ensures images == old(images) && currentPage == old(currentPage) && totalPages == old(totalPages)
      ensures isAdding == old(isAdding) && editingId == old(editingId) && newImage == old(newImage)
      ensures editData == old(editData) && uploadMode == old(uploadMode) && selectedFile == old(selectedFile)
      ensures totalElements == old(totalElements) && loading == old(loading)
    {
      if answer.Some? {
        categories := NormalizeCategories(answer.value);
      }
    }

    /** The page effect: on an answer the page, its count and its total;
        on a failure no images; loading ends either way. */
    method LoadImages(answer: Option<MediaPage>)
      requires Valid()
      modifies this
      ensures Valid() && !loading
      ensures answer.Some? ==> images == answer.value.content && totalPages == answer.value.totalPages
                               && totalElements == answer.value.totalElements
      ensures answer.None? ==> images == [] && totalPages == old(totalPages) && totalElements == old(totalElements)
      ensures categories == old(categories) && currentPage == old(currentPage)
      ensures isAdding == old(isAdding) && editingId == old(editingId) && newImage == old(newImage)
      ensures editData == old(editData) && uploadMode == old(uploadMode) && selectedFile == old(selectedFile)
    {
      loading := true;
      if answer.Some? {
        images := answer.value.content;
        totalPages := answer.value.totalPages;
        totalElements := answer.value.totalElements;
      } else {
        images := [];
      }
      loading := false;
    }

    /** Replaces the page from a reload. */
    method ApplyPage(page: MediaPage)
      modifies this
      ensures images == page.content && totalElements == page.totalElements && totalPages == page.totalPages
      ensures categories == old(categories) && currentPage == old(currentPage) && loading == old(loading)
      ensures isAdding == old(isAdding) && editingId == old(editingId) && newImage == old(newImage)
      ensures editData == old(editData) && uploadMode == old(uploadMode) && selectedFile == old(selectedFile)
    {
      images := page.content;
      totalElements := page.totalElements;
      totalPages := page.totalPages;
    }

    /** `handleAddImage`. In file mode without a file, or in URL mode
        without a URL, nothing is sent and nothing changes. Otherwise the
        upload is sent; when it and the reload succeed the page is
        replaced, the form closes and returns to its defaults in file mode,
        and the categories are reloaded. A throw changes nothing. */
    method HandleAddImage(outcome: Reload, categoriesAnswer: Option<Option<seq<Option<string>>>>)
      returns (call: Option<UploadCall>)
      requires Valid()
      modifies this
      ensures Valid()
      ensures call == UploadFor(old(uploadMode), old(selectedFile), old(newImage))
      ensures call.Some? && outcome.Reloaded? ==>
        && images == outcome.page.content && totalElements == outcome.page.totalElements
        && totalPages == outcome.page.totalPages
        && !isAdding && uploadMode == FileMode && selectedFile.None? && newImage == BlankUpload
        && categories == (if categoriesAnswer.Some? then NormalizeCategories(categoriesAnswer.value) else old(categories))
      ensures call.None? || outcome.Threw? ==>
        images == old(images) && isAdding == old(isAdding) && uploadMode == old(uploadMode)
        && selectedFile == old(selectedFile) && newImage == old(newImage) && categories == old(categories)
        && totalElements == old(totalElements) && totalPages == old(totalPages)
      ensures currentPage == old(currentPage) && editingId == old(editingId) && editData == old(editData)
      ensures loading == old(loading)
    {
      call := UploadFor(uploadMode, selectedFile, newImage);
      if call.None? || outcome.Threw? {
        return;
      }
      ApplyPage(outcome.page);
      ResetAddForm();
      LoadCategories(categoriesAnswer);
    }

    /** After a successful add: the form closes and returns to its defaults
        in file mode. */
    method ResetAddForm()
      requires Valid()
      modifies this
      ensures Valid()
      ensures !isAdding && uploadMode == FileMode && selectedFile.None? && newImage == BlankUpload
      ensures images == old(images) && categories == old(categories) && currentPage == old(currentPage)
      ensures editingId == old(editingId) && editData == old(editData) && loading == old(loading)
      ensures totalPages == old(totalPages) && totalElements == old(totalElements)
    {
      isAdding := false;
      uploadMode := FileMode;
      selectedFile := None;
      newImage := BlankUpload;
    }

    /** `handleDeleteImage`: nothing without confirmation; after a delete
        and reload the page is replaced; a throw yields the alert chosen
        by `DeleteErrorAlert`. */
    method HandleDeleteImage(id: string, confirmed: bool, outcome: Reload) returns (alert: Option<string>)
      requires Valid()
      modifies this
      ensures Valid()
      ensures !confirmed ==> alert.None? && images == old(images)
                             && totalElements == old(totalElements) && totalPages == old(totalPages)
      ensures confirmed && outcome.Reloaded? ==>
        alert == Some(DeletedMessage) && images == outcome.page.content
        && totalElements == outcome.page.totalElements && totalPages == outcome.page.totalPages
      ensures confirmed && outcome.Threw? ==>
        alert == Some(DeleteErrorAlert(outcome.message)) && images == old(images)
        && totalElements == old(totalElements) && totalPages == old(totalPages)
      ensures categories == old(categories) && currentPage == old(currentPage) && loading == old(loading)
      ensures isAdding == old(isAdding) && editingId == old(editingId) && newImage == old(newImage)
      ensures editData == old(editData) && uploadMode == old(uploadMode) && selectedFile == old(selectedFile)
    {
      if !confirmed {
        return None;
      }
      if outcome.Threw? {
        return Some(DeleteErrorAlert(outcome.message));
      }
      ApplyPage(outcome.page);
      alert := Some(DeletedMessage);
    }

    /** `handleEditImage`: open the editor on the image with its fields. */
    method HandleEditImage(image: Media)
      requires Valid()
      modifies this
      ensures Valid()
      ensures editingId == Some(image.id) && editData == EditCopy(image)
      ensures images == old(images) && categories == old(categories) && currentPage == old(currentPage)
      ensures isAdding == old(isAdding) && newImage == old(newImage) && loading == old(loading)
      ensures uploadMode == old(uploadMode) && selectedFile == old(selectedFile)
      ensures totalPages == old(totalPages) && totalElements == old(totalElements)
    {
      editingId := Some(image.id);
      editData := EditCopy(image);
    }

    /** The editor's cancel button. */
    method CancelEdit()
      requires Valid()
      modifies this
      ensures Valid()
      ensures editingId.None? && editData == EmptyEdit
      ensures images == old(images) && categories == old(categories) && currentPage == old(currentPage)
      ensures isAdding == old(isAdding) && newImage == old(newImage) && loading == old(loading)
      ensures uploadMode == old(uploadMode) && selectedFile == old(selectedFile)
      ensures totalPages == old(totalPages) && totalElements == old(totalElements)
    {
      editingId := None;
      editData := EmptyEdit;
    }

    /** `handleSaveEdit`: nothing without an image being edited (no id, or
        the empty id, which is falsy); after the update and reload the page
        is replaced, the editor closes and the categories are reloaded; a
        throw changes nothing. Returns whether the update was sent. */
    method HandleSaveEdit(outcome: Reload, categoriesAnswer: Option<Option<seq<Option<string>>>>)
      returns (sent: bool)
      requires Valid()
      modifies this
      ensures Valid()
      ensures sent <==> old(editingId).Some? && old(editingId).value != ""
      ensures sent && outcome.Reloaded? ==>
        images == outcome.page.content && totalElements == outcome.page.totalElements
        && totalPages == outcome.page.totalPages && editingId.None? && editData == EmptyEdit
        && categories == (if categoriesAnswer.Some? then NormalizeCategories(categoriesAnswer.value) else old(categories))
      ensures !sent || outcome.Threw? ==>
        images == old(images) && editingId == old(editingId) && editData == old(editData)
        && categories == old(categories) && totalElements == old(totalElements) && totalPages == old(totalPages)
      ensures currentPage == old(currentPage) && isAdding == old(isAdding) && newImage == old(newImage)
      ensures uploadMode == old(uploadMode) && selectedFile == old(selectedFile) && loading == old(loading)
    {
      if editingId.None? || editingId.value == "" {
        return false;
      }
      sent := true;
      if outcome.Threw? {
        return;
      }
      ApplyPage(outcome.page);
      editingId := None;
      editData := EmptyEdit;
      LoadCategories(categoriesAnswer);
    }

    /** Closing the add form: file mode, no file. */
    method CloseAddForm()
      requires Valid()
      modifies this
      ensures Valid()
      ensures !isAdding && uploadMode == FileMode && selectedFile.None?
      ensures images == old(images) && categories == old(categories) && currentPage == old(currentPage)
      ensures newImage == old(newImage) && editingId == old(editingId) && editData == old(editData)
      ensures totalPages == old(totalPages) && totalElements == old(totalElements) && loading == old(loading)
    {
      isAdding := false;
      uploadMode := FileMode;
      selectedFile := None;
    }

    /** The add button opens the form as it was left. */
    method OpenAddForm()
      requires Valid()
      modifies this
      ensures Valid() && isAdding
      ensures uploadMode == old(uploadMode) && selectedFile == old(selectedFile) && newImage == old(newImage)
      ensures images == old(images) && categories == old(categories) && currentPage == old(currentPage)
      ensures editingId == old(editingId) && editData == old(editData)
      ensures totalPages == old(totalPages) && totalElements == old(totalElements) && loading == old(loading)
    {
      isAdding := true;
    }

    /** The two mode buttons; the chosen file is kept. */
    method SelectMode(mode: UploadMode)
      requires Valid()
      modifies this
      ensures Valid() && uploadMode == mode
      ensures isAdding == old(isAdding) && selectedFile == old(selectedFile) && newImage == old(newImage)
      ensures images == old(images) && categories == old(categories) && currentPage == old(currentPage)
      ensures editingId == old(editingId) && editData == old(editData)
      ensures totalPages == old(totalPages) && totalElements == old(totalElements) && loading == old(loading)
    {
      uploadMode := mode;
    }

    /** The file input: the first chosen file, or none. */
    method SelectFile(file: Option<File>)
      requires Valid()
      modifies this
      ensures Valid() && selectedFile == file
      ensures isAdding == old(isAdding) && uploadMode == old(uploadMode) && newImage == old(newImage)
      ensures images == old(images) && categories == old(categories) && currentPage == old(currentPage)
      ensures editingId == old(editingId) && editData == old(editData)
      ensures totalPages == old(totalPages) && totalElements == old(totalElements) && loading == old(loading)
    {
      selectedFile := file;
    }

    /** An input of the add form sets its one field. */
    method EditUpload(field: UploadField, value: string)
      requires Valid()
      modifies this
      ensures Valid()
      ensures newImage == match field
        case UrlInput => old(newImage).(url := value)
        case CaptionInput => old(newImage).(caption := value)
        case LocationInput => old(newImage).(location := value)
        case CategoryInput => old(newImage).(category := Some(value))
      ensures isAdding == old(isAdding) && uploadMode == old(uploadMode) && selectedFile == old(selectedFile)
      ensures images == old(images) && categories == old(categories) && currentPage == old(currentPage)
      ensures editingId == old(editingId) && editData == old(editData)
      ensures totalPages == old(totalPages) && totalElements == old(totalElements) && loading == old(loading)
    {
      match field {
        case UrlInput => newImage := newImage.(url := value);
        case CaptionInput => newImage := newImage.(caption := value);
        case LocationInput => newImage := newImage.(location := value);
        case CategoryInput => newImage := newImage.(category := Some(value));
      }
    }

    /** An input of the edit form sets its one field. */
    method EditChange(field: EditField, value: string)
      requires Valid()
      modifies this
      ensures Valid()
      ensures editData == match field
        case CaptionEdit => old(editData).(caption := Some(value))
        case LocationEdit => old(editData).(location := Some(value))
        case CategoryEdit => old(editData).(category := Some(value))
      ensures isAdding == old(isAdding) && uploadMode == old(uploadMode) && selectedFile == old(selectedFile)
      ensures images == old(images) && categories == old(categories) && currentPage == old(currentPage)
      ensures editingId == old(editingId) && newImage == old(newImage)
      ensures totalPages == old(totalPages) && totalElements == old(totalElements) && loading == old(loading)
    {
      match field {
        case CaptionEdit => editData := editData.(caption := Some(value));
        case LocationEdit => editData := editData.(location := Some(value));
        case CategoryEdit => editData := editData.(category := Some(value));
      }
    }

    /** A click on the previous button; hidden or disabled, it does nothing. */
    method PreviousPage()
      requires Valid()
      modifies this
      ensures Valid()
      ensures currentPage == (if ShowPagination(totalPages) && !PrevDisabled(old(currentPage), loading)
                              then PrevPage(old(currentPage)) else old(currentPage))
      ensures 0 <= old(currentPage) < totalPages ==> 0 <= currentPage < totalPages
      ensures images == old(images) && categories == old(categories) && totalPages == old(totalPages)
      ensures newImage == old(newImage) && editingId == old(editingId) && editData == old(editData)
      ensures isAdding == old(isAdding) && uploadMode == old(uploadMode) && selectedFile == old(selectedFile)
      ensures totalElements == old(totalElements) && loading == old(loading)
    {
      if ShowPagination(totalPages) && !PrevDisabled(currentPage, loading) {
        currentPage := PrevPage(currentPage);
      }
    }

    /** A click on the next button; hidden or disabled, it does nothing. */
    method NextPageClick()
      requires Valid()
      modifies this
      ensures Valid()
      ensures currentPage == (if ShowPagination(totalPages) && !NextDisabled(old(currentPage), totalPages, loading)
                              then NextPage(old(currentPage), totalPages) else old(currentPage))
      ensures 0 <= old(currentPage) < totalPages ==> 0 <= currentPage < totalPages
      ensures images == old(images) && categories == old(categories) && totalPages == old(totalPages)
      ensures newImage == old(newImage) && editingId == old(editingId) && editData == old(editData)
      ensures isAdding == old(isAdding) && uploadMode == old(uploadMode) && selectedFile == old(selectedFile)
      ensures totalElements == old(totalElements) && loading == old(loading)
    {
      if ShowPagination(totalPages) && !NextDisabled(currentPage, totalPages, loading) {
        currentPage := NextPage(currentPage, totalPages);
      }
    }
  }
}
