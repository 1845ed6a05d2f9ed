/** The admin post editor: the form loaded for an existing post, the slug
    derived from a title, and the save sequence of create, update, publish
    and unpublish calls. Each back-end call is reduced to whether it fails. */
module AdminPostEditor {
  import opened Text
  import opened Slugs

  /** The editor form (`PostCreateDto`). */
  datatype PostForm = PostForm(
    title: string,
    subtitle: Option<string>,
    section: string,
    excerpt: string,
    content: string,
    coverImageUrl: string,
    slug: string)

  /** A new post's form: section `EDITORIAL`, every text field empty. */
  const InitialForm := PostForm("", None, "EDITORIAL", "", "", "", "")

  /** The section keys offered before (or instead of) the loaded ones. */
  const FallbackSections: seq<string> := ["EDITORIAL", "NOTES", "DIARY"]

  /** The section keys: those of the loaded sections, or the fallback when
      loading fails (`None`). */
  function SectionKeys(loaded: Option<seq<string>>): (r: seq<string>)
    ensures loaded.None? ==> r == FallbackSections
    ensures loaded.Some? ==> r == loaded.value
  {
    loaded.GetOr(FallbackSections)
  }

  /** A post as the admin API returns it; absent or `null` fields are `None`. */
  datatype AdminPost = AdminPost(
    title: string,
    subtitle: Option<string>,
    section: string,
    excerpt: Option<string>,
    content: Option<string>,
    coverImageUrl: Option<string>,
    slug: string,
    status: string)

  /** `v || ""`. */
  function OrEmpty(v: Option<string>): (r: string)
    ensures v.Some? ==> r == v.value
    ensures v.None? ==> r == ""
  {
    if v.None? || v.value == "" then "" else v.value
  }

  /** `v || undefined`: an empty string counts as absent. */
  function OrAbsent(v: Option<string>): (r: Option<string>)
    ensures r.Some? <==> v.Some? && v.value != ""
    ensures r.Some? ==> r == v
  {
    if v.None? || v.value == "" then None else v
  }

  /** The form filled from a loaded post: a missing excerpt, content or
      cover becomes "", a missing or empty subtitle is left out, and title,
      section and slug are copied. */
  function FormFromPost(post: AdminPost): (r: PostForm)
    ensures r.title == post.title && r.section == post.section && r.slug == post.slug
    ensures r.subtitle.Some? <==> post.subtitle.Some? && post.subtitle.value != ""
    ensures r.subtitle.Some? ==> r.subtitle == post.subtitle
    ensures r.excerpt == post.excerpt.GetOr("")
    ensures r.content == post.content.GetOr("")
    ensures r.coverImageUrl == post.coverImageUrl.GetOr("")
  {
    PostForm(post.title, OrAbsent(post.subtitle), post.section, OrEmpty(post.excerpt),
             OrEmpty(post.content), OrEmpty(post.coverImageUrl), post.slug)
  }

  /** The form after a title change: the title is replaced, a non-empty slug
      is kept, an empty one becomes the title's slug; nothing else changes. */
  function TitleChanged(form: PostForm, title: string): (r: PostForm)
    ensures r.title == title
    ensures form.slug != "" ==> r.slug == form.slug
    ensures form.slug == "" ==> r.slug == GenerateSlug(title) && IsSlug(r.slug)
    ensures r.(title := form.title, slug := form.slug) == form
  {
    form.(title := title, slug := if form.slug != "" then form.slug else GenerateSlug(title))
  }

  /** Once the slug is set, later title changes keep it. */
  lemma SlugFixedAfterFirstTitle(form: PostForm, first: string, second: string)
    requires GenerateSlug(first) != "" || form.slug != ""
    ensures TitleChanged(TitleChanged(form, first), second).slug == TitleChanged(form, first).slug
  {
  }

  datatype Mode = Create | Edit

  /** A call to the admin API. */
  datatype ApiCall =
    | CreatePost(form: PostForm)
    | UpdatePost(id: string, form: PostForm)
    | PublishPost(id: string)
    | UnpublishPost(id: string)

  /** The status change that follows an update: publish when asked to and
      not yet published, unpublish when not asked to and published. */
  function StatusCalls(id: string, shouldPublish: bool, currentStatus: Option<string>): (r: seq<ApiCall>)
    ensures |r| <= 1
    ensures r == [PublishPost(id)] <==> shouldPublish && currentStatus != Some("published")
    ensures r == [UnpublishPost(id)] <==> !shouldPublish && currentStatus == Some("published")
  {
    if shouldPublish && currentStatus != Some("published") then [PublishPost(id)]
    else if !shouldPublish && currentStatus == Some("published") then [UnpublishPost(id)]
    else []
  }

  /** Every call `handleSave` makes when none fails. `newId` is the id the
      create call returns. */
  function PlannedCalls(mode: Mode, postId: Option<string>, form: PostForm, shouldPublish: bool,
                        currentStatus: Option<string>, newId: string): seq<ApiCall>
  {
    if mode == Create then [CreatePost(form)] + (if shouldPublish then [PublishPost(newId)] else [])
    else if postId.Some? && postId.value != "" then
      [UpdatePost(postId.value, form)] + StatusCalls(postId.value, shouldPublish, currentStatus)
    else []
  }

  /** A save never both publishes and unpublishes; creating publishes
      exactly when asked to, and never unpublishes. */
  lemma NeverPublishAndUnpublish(mode: Mode, postId: Option<string>, form: PostForm, shouldPublish: bool,
                                 currentStatus: Option<string>, newId: string)
    ensures var calls := PlannedCalls(mode, postId, form, shouldPublish, currentStatus, newId);
      && |calls| <= 2
      && !(exists i, j :: 0 <= i < |calls| && 0 <= j < |calls| && calls[i].PublishPost? && calls[j].UnpublishPost?)
      && (mode == Create ==> ((exists i :: 0 <= i < |calls| && calls[i].PublishPost?) <==> shouldPublish))
      && (mode == Create ==> forall i :: 0 <= i < |calls| ==> !calls[i].UnpublishPost?)
  {
    var calls := PlannedCalls(mode, postId, form, shouldPublish, currentStatus, newId);
    if mode == Create && shouldPublish {
      assert calls[1].PublishPost?;
    }
  }

  /** The editor's state. */
  class Editor {
    var form: PostForm
    var saving: bool
    /** The status of the post loaded in edit mode, if any. */
    var currentStatus: Option<string>
    /** The section keys offered in the form. */
    var sections: seq<string>

    constructor ()
      ensures form == InitialForm && !saving && currentStatus == None && sections == FallbackSections
    {
      form := InitialForm;
      saving := false;
      currentStatus := None;
      sections := FallbackSections;
    }

    /** The sections effect: the loaded keys, or the fallback on failure. */
    method LoadSections(loaded: Option<seq<string>>)
      modifies this
      ensures sections == SectionKeys(loaded)
      ensures form == old(form) && saving == old(saving) && currentStatus == old(currentStatus)
    {
      sections := SectionKeys(loaded);
    }

    /** The edit-mode effect once the post has loaded. */
    method LoadPost(post: AdminPost)
      modifies this
      ensures form == FormFromPost(post) && currentStatus == Some(post.status)
      ensures saving == old(saving) && sections == old(sections)
    {
      currentStatus := Some(post.status);
      form := FormFromPost(post);
    }

    /** `handleTitleChange`. */
    method HandleTitleChange(title: string)
      modifies this
      ensures form == TitleChanged(old(form), title)
      ensures saving == old(saving) && currentStatus == old(currentStatus) && sections == old(sections)
    {
      form := form.(title := title, slug := if form.slug != "" then form.slug else GenerateSlug(title));
    }

    /** `handleSave`. A blank title stops before any call. Otherwise the
        calls are made in order until one fails (`failAt` is the index of the
        failing call, if any); the editor returns to the post list only when
        all succeed; `saving` is false at the end. */
    method HandleSave(shouldPublish: bool, mode: Mode, postId: Option<string>, newId: string, failAt: Option<nat>)
      returns (made: seq<ApiCall>, navigated: bool)
      modifies this
      ensures form == old(form) && currentStatus == old(currentStatus) && sections == old(sections)
      ensures Trim(form.title) == "" ==> made == [] && !navigated && saving == old(saving)
      ensures Trim(form.title) != "" ==>
        var planned := PlannedCalls(mode, postId, form, shouldPublish, currentStatus, newId);
        && !saving
        && (failAt.Some? && failAt.value < |planned| ==> made == planned[..failAt.value + 1] && !navigated)
        && (failAt.None? || failAt.value >= |planned| ==> made == planned && navigated == (planned != []))
    {
      made := [];
      navigated := false;
      if Trim(form.title) == "" {
        return;
      }
      saving := true;
      if mode == Create {
        made := made + [CreatePost(form)];
        if failAt == Some(0) {
          saving := false;
          return;
        }
        if shouldPublish {
          made := made + [PublishPost(newId)];
          if failAt == Some(1) {
            saving := false;
            return;
          }
        }
        navigated := true;
      } else if postId.Some? && postId.value != "" {
        var id := postId.value;
        made := made + [UpdatePost(id, form)];
        if failAt == Some(0) {
          saving := false;
          return;
        }
        if shouldPublish && currentStatus != Some("published") {
          made := made + [PublishPost(id)];
        } else if !shouldPublish && currentStatus == Some("published") {
          made := made + [UnpublishPost(id)];
        }
        if |made| == 2 && failAt == Some(1) {
          saving := false;
          return;
        }
        navigated := true;
      }
      saving := false;
    }
  }
}
