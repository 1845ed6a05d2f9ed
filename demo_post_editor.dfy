/** The post editor of the local demo admin: a new post's defaults, the
    slug derived from a title, and the post handed back on save. */
module DemoPostEditor {
  import opened Text
  import opened Slugs

  datatype Status = Published | Draft

  /** The demo's post record. */
  datatype Post = Post(
    id: int,
    title: string,
    section: string,
    status: Status,
    author: string,
    date: string,
    featured: bool,
    showOnFrontPage: bool,
    excerpt: string,
    content: string,
    coverImage: Option<string>,
    slug: Option<string>)

  /** The form of a new post. `now` stands for `Date.now()` and `today` for
      the current date formatted like "December 14, 2025". */
  function NewPost(now: int, today: string): (p: Post)
    ensures p.id == now && p.date == today
    ensures p.status == Draft && p.section == "Editorial" && p.author == "Editorial Board"
    ensures !p.featured && p.showOnFrontPage
    ensures p.title == "" && p.excerpt == "" && p.content == ""
    ensures p.coverImage == Some("") && p.slug == Some("")
  {
    Post(now, "", "Editorial", Draft, "Editorial Board", today, false, true, "", "", Some(""), Some(""))
  }

  /** The initial form: the post being edited, or a new post. */
  function InitialForm(post: Option<Post>, now: int, today: string): (r: Post)
    ensures post.Some? ==> r == post.value
    ensures post.None? ==> r == NewPost(now, today)
  {
    post.GetOr(NewPost(now, today))
  }

  /** `handleSave`: the form with its status replaced by the chosen one. */
  function Saved(form: Post, status: Status): (r: Post)
    ensures r.status == status
    ensures r.(status := form.status) == form
  {
    form.(status := status)
  }

  /** `formData.slug || generateSlug(title)`: a set, non-empty slug is kept. */
  function TitleChanged(form: Post, title: string): (r: Post)
    ensures r.title == title
    ensures form.slug.Some? && form.slug.value != "" ==> r.slug == form.slug
    ensures form.slug.None? || form.slug.value == "" ==>
      r.slug == Some(GenerateSlug(title)) && IsSlug(r.slug.value)
    ensures r.(title := form.title, slug := form.slug) == form
  {
    var keep := form.slug.Some? && form.slug.value != "";
    form.(title := title, slug := if keep then form.slug else Some(GenerateSlug(title)))
  }

  /** Saving twice keeps only the last status. */
  lemma SaveLastWins(form: Post, first: Status, second: Status)
    ensures Saved(Saved(form, first), second) == Saved(form, second)
  {
  }

  /** The editor's form state. */
  class Editor {
    var form: Post

    constructor (post: Option<Post>, now: int, today: string)
      ensures form == InitialForm(post, now, today)
    {
      form := InitialForm(post, now, today);
    }

    /** `handleTitleChange`: replaces the form. */
    method HandleTitleChange(title: string)
      modifies this
      ensures form == TitleChanged(old(form), title)
    {
      var keep := form.slug.Some? && form.slug.value != "";
      form := form.(title := title, slug := if keep then form.slug else Some(GenerateSlug(title)));
    }

    /** `handleSave`: the post passed to `onSave`; the form itself is kept. */
    method HandleSave(status: Status) returns (saved: Post)
      ensures saved == Saved(form, status)
    {
      saved := form.(status := status);
    }
  }
}
