/** The admin category (section) manager: the key derived from a new
    section's name, the guards and request of "add" and "save edit", the
    edit form, and the fallbacks used to display a section. The calls to the
    back end are reduced to whether they succeed. */
module CategoryManager {
  import opened Text
  import opened Slugs

  /** A section as the admin API lists it; fields the API may omit are `Option`s. */
  datatype Section = Section(
    id: string,
    key: string,
    name: Option<string>,
    displayLabel: Option<string>,
    description: Option<string>,
    active: Option<bool>,
    enabled: Option<bool>)

  /** `toSectionKey`: the title's slug, computed after trimming. */
  function ToSectionKey(value: string): (r: string)
    ensures IsSlug(r)
    ensures r == GenerateSlug(value)
  {
    SlugOfTrim(value);
    GenerateSlug(Trim(value))
  }

  /** Deriving a key from a key changes nothing. */
  lemma ToSectionKeyIdempotent(value: string)
    ensures ToSectionKey(ToSectionKey(value)) == ToSectionKey(value)
  {
    GenerateSlugIdempotent(value);
  }

  /** A name with no letter or digit has no key, so "add" can refuse a
      name that is not blank. */
  lemma PunctuationHasNoKey()
    ensures Trim("!!!") == "!!!" && ToSectionKey("!!!") == ""
  {
    assert Lower("!!!") == "!!!";
    assert SkipSeparators("!!!") == [];
    assert CollapseSeparators("!!!") == "-";
  }

  /** `name ?? label ?? key`: the name shown for a section and put in the edit form. */
  function DisplayName(s: Section): (r: string)
    ensures s.name.Some? ==> r == s.name.value
    ensures s.name.None? && s.displayLabel.Some? ==> r == s.displayLabel.value
    ensures s.name.None? && s.displayLabel.None? ==> r == s.key
  {
    match s.name
    case Some(n) => n
    case None => s.displayLabel.GetOr(s.key)
  }

  /** `active ?? enabled ?? true`: a section is shown as active unless one
      of the two flags says otherwise. */
  function IsActive(s: Section): (r: bool)
    ensures s.active.Some? ==> r == s.active.value
    ensures s.active.None? && s.enabled.Some? ==> r == s.enabled.value
    ensures s.active.None? && s.enabled.None? ==> r
  {
    s.active.GetOr(s.enabled.GetOr(true))
  }

  datatype FormData = FormData(name: string, description: string)

  const EmptyForm := FormData("", "")

  datatype Visibility = Public

  /** The `createSection` request. */
  datatype CreateRequest = CreateRequest(
    key: string,
    name: string,
    description: Option<string>,
    visibility: Visibility,
    active: bool)

  /** The `updateSection` request. */
  datatype UpdateRequest = UpdateRequest(id: string, name: string, description: string)

  /** `trimmed || undefined`. */
  function NonBlank(s: string): (r: Option<string>)
    ensures r.None? <==> AllSpace(s)
    ensures r.Some? ==> r.value == Trim(s) && IsTrimmed(r.value)
  {
    if Trim(s) == "" then None else Some(Trim(s))
  }

  /** The request "add" sends for a form, or `None` when a guard stops it. */
  function AddRequest(form: FormData): (r: Option<CreateRequest>)
    ensures r.None? <==> Trim(form.name) == "" || ToSectionKey(form.name) == ""
    ensures r.Some? ==>
      && IsSlug(r.value.key) && r.value.key != ""
      && r.value.key == GenerateSlug(form.name)
      && r.value.name == Trim(form.name) && r.value.name != ""
      && r.value.description == NonBlank(form.description)
      && r.value.visibility == Public && r.value.active
  {
    if Trim(form.name) == "" then None
    else
      var sectionKey := ToSectionKey(form.name);
      if sectionKey == "" then None
      else Some(CreateRequest(sectionKey, Trim(form.name), NonBlank(form.description), Public, true))
  }

  /** The state of the manager's form. */
  class Manager {
    var isAdding: bool
    var editingId: Option<string>
    var form: FormData

    constructor ()
      ensures !isAdding && editingId == None && form == EmptyForm
    {
      isAdding := false;
      editingId := None;
      form := EmptyForm;
    }

    /** `handleAdd`: no request when the trimmed name is blank or yields no
        key; otherwise the request of `AddRequest`, and on success the form
        is emptied and closed. A failed call leaves the form as it was. */
    method HandleAdd(createSucceeds: bool) returns (request: Option<CreateRequest>)
      modifies this
      ensures request == AddRequest(old(form))
      ensures editingId == old(editingId)
      ensures request.Some? && createSucceeds ==> form == EmptyForm && !isAdding
      ensures request.None? || !createSucceeds ==> form == old(form) && isAdding == old(isAdding)
    {
      if Trim(form.name) == "" {
        return None;
      }
      var sectionKey := ToSectionKey(form.name);
      if sectionKey == "" {
        return None;
      }
      request := Some(CreateRequest(sectionKey, Trim(form.name), NonBlank(form.description), Public, true));
      if createSucceeds {
        form := EmptyForm;
        isAdding := false;
      }
    }

    /** `handleEdit`: opens the form on the section with its display name
        and its description (or ""). */
    method HandleEdit(section: Section)
      modifies this
      ensures editingId == Some(section.id)
      ensures form == FormData(DisplayName(section), section.description.GetOr(""))
      ensures isAdding == old(isAdding)
    {
      editingId := Some(section.id);
      form := FormData(DisplayName(section), section.description.GetOr(""));
    }

    /** `handleSaveEdit`: no request when the trimmed name is blank or no
        section is being edited (no id, or the falsy empty id); otherwise the trimmed name and description
        are sent, and on success the edit closes. */
    method HandleSaveEdit(updateSucceeds: bool) returns (request: Option<UpdateRequest>)
      modifies this
      ensures request.None? <==> Trim(old(form).name) == "" || old(editingId).None? || old(editingId).value == ""
      ensures request.Some? ==>
        request.value == UpdateRequest(old(editingId).value, Trim(old(form).name), Trim(old(form).description))
      ensures request.Some? && updateSucceeds ==> editingId == None && form == EmptyForm
      ensures request.None? || !updateSucceeds ==> editingId == old(editingId) && form == old(form)
      ensures isAdding == old(isAdding)
    {
      if Trim(form.name) == "" || editingId.None? || editingId.value == "" {
        return None;
      }
      request := Some(UpdateRequest(editingId.value, Trim(form.name), Trim(form.description)));
      if updateSucceeds {
        editingId := None;
        form := EmptyForm;
      }
    }

    /** `handleCancel`: closes both the add and the edit form and empties it. */
    method HandleCancel()
      modifies this
      ensures !isAdding && editingId == None && form == EmptyForm
    {
      isAdding := false;
      editingId := None;
      form := EmptyForm;
    }
  }
}
