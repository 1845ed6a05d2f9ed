/** The string helpers of the rich-text editor and the decisions its
    toolbar handlers make. The editor instance is outside the model: a
    handler yields the command it would run on it, or `None` when it
    returns early. `window.prompt` is a parameter (`None` when cancelled),
    as are `JSON.stringify` and `new URL`. */
module RichTextEditor {
  import opened Text
  import opened EditorContent

  /** `serializeInitialContent`: a string as it is, a document through
      `JSON.stringify` ("" when that throws). */
  function SerializeInitialContent(content: InitialContent, stringify: string -> Option<string>): (r: string)
    ensures content.TextContent? ==> r == content.text
    ensures content.Doc? ==> r == stringify(content.json).GetOr("")
  {
    match content
    case TextContent(text) => text
    case Doc(json) => stringify(json).GetOr("")
  }

  /** Trimmed HTML that is not JSON survives the trip into the editor and
      back out as its initial string. */
  lemma InitialHtmlRoundTrip(html: string, parse: string -> Parsed, stringify: string -> Option<string>)
    requires IsTrimmed(html) && LooksLikeHtml(html) && !parse(html).Record?
    ensures SerializeInitialContent(ToEditorInitialContent(Some(html), parse), stringify) == html
  {
    HtmlReachesEditor(html, parse);
  }

  // ---------------------------------------------------------------------
  // Links

  /** `[\w+.-]`. */
  predicate IsSchemeChar(c: char) {
    IsAsciiLetter(c) || IsAsciiDigit(c) || c == '_' || c == '+' || c == '.' || c == '-'
  }

  /** `[\w+.-]*:` matches a prefix of `t`. */
  predicate SchemeRest(t: string) {
    t != [] && (t[0] == ':' || (IsSchemeChar(t[0]) && SchemeRest(t[1..])))
  }

  /** `/^[a-zA-Z][\w+.-]*:/.test(s)`: `s` opens with a URL scheme. */
  predicate HasScheme(s: string) {
    s != [] && IsAsciiLetter(s[0]) && SchemeRest(s[1..])
  }

  const DefaultScheme: string := "https://"

  lemma DefaultSchemeHasScheme(t: string)
    ensures HasScheme(DefaultScheme + t)
  {
    var s := DefaultScheme + t;
    assert s[1..][1..][1..][1..][1..] == "://" + t;
    assert SchemeRest(s[1..][1..][1..][1..][1..]);
    assert SchemeRest(s[1..][1..][1..][1..]);
    assert SchemeRest(s[1..][1..][1..]);
    assert SchemeRest(s[1..][1..]);
  }

  /** `normalizeLink`: "" for a blank URL; the trimmed URL when it has a
      scheme; otherwise the trimmed URL behind "https://". */
  function NormalizeLink(url: string): (r: string)
    ensures r == "" <==> AllSpace(url)
    ensures !AllSpace(url) && HasScheme(Trim(url)) ==> r == Trim(url)
    ensures !AllSpace(url) && !HasScheme(Trim(url)) ==> r == DefaultScheme + Trim(url)
    ensures IsTrimmed(r)
    ensures r != "" ==> HasScheme(r)
  {
    var trimmed := Trim(url);
    if trimmed == "" then ""
    else if HasScheme(trimmed) then trimmed
    else
      DefaultSchemeHasScheme(trimmed);
      var r := DefaultScheme + trimmed;
      assert r[0] == 'h' && r[|r| - 1] == trimmed[|trimmed| - 1];
      r
  }

  /** Normalising a normalised link changes nothing. */
  lemma NormalizeLinkIdempotent(url: string)
    ensures NormalizeLink(NormalizeLink(url)) == NormalizeLink(url)
  {
    TrimOfTrimmed(NormalizeLink(url));
  }

  // ---------------------------------------------------------------------
  // Math formulas

  /** `sanitizeMathFormula`: trimmed, with one `$$…$$` pair (more than four
      characters) or else one `$…$` pair (more than two) taken off and the
      rest trimmed again. */
  function SanitizeMathFormula(raw: string): (r: string)
    ensures IsTrimmed(r)
    ensures AllSpace(raw) ==> r == ""
    ensures |r| <= |Trim(raw)|
    ensures var t := Trim(raw);
      && (StartsWith(t, "$$") && EndsWith(t, "$$") && |t| > 4 ==> r == Trim(t[2..|t| - 2]))
      && (!(StartsWith(t, "$$") && EndsWith(t, "$$") && |t| > 4) && StartsWith(t, "$") && EndsWith(t, "$") && |t| > 2 ==>
            r == Trim(t[1..|t| - 1]))
      && (!(StartsWith(t, "$$") && EndsWith(t, "$$") && |t| > 4) && !(StartsWith(t, "$") && EndsWith(t, "$") && |t| > 2) ==>
            r == t)
  {
    var next := Trim(raw);
    if next == "" then ""
    else if StartsWith(next, "$$") && EndsWith(next, "$$") && |next| > 4 then Trim(next[2..|next| - 2])
    else if StartsWith(next, "$") && EndsWith(next, "$") && |next| > 2 then Trim(next[1..|next| - 1])
    else next
  }

  /** A block formula typed with its `$$` delimiters loses them. */
  lemma BlockDelimitersStripped(formula: string)
    requires formula != "" && IsTrimmed(formula)
    ensures SanitizeMathFormula("$$" + formula + "$$") == formula
  {
    var t := "$$" + formula + "$$";
    assert t[0] == '$' && t[|t| - 1] == '$';
    TrimOfTrimmed(t);
    assert t[..2] == "$$" && t[|t| - 2..] == "$$";
    assert t[2..|t| - 2] == formula;
    TrimOfTrimmed(formula);
  }

  /** An inline formula typed with its `$` delimiters loses them. */
  lemma InlineDelimitersStripped(formula: string)
    requires formula != "" && IsTrimmed(formula) && formula[0] != '$'
    ensures SanitizeMathFormula("$" + formula + "$") == formula
  {
    var t := "$" + formula + "$";
    assert t[0] == '$' && t[|t| - 1] == '$';
    TrimOfTrimmed(t);
    assert t[1] == formula[0];
    assert !StartsWith(t, "$$");
    assert t[..1] == "$" && t[|t| - 1..] == "$";
    assert t[1..|t| - 1] == formula;
    TrimOfTrimmed(formula);
  }

  // ---------------------------------------------------------------------
  // Media download links

  /** A parsed URL: its `pathname` and what `toString` puts around it. */
  datatype Url = Url(front: string, pathname: string, back: string)

  function UrlString(u: Url): string {
    u.front + u.pathname + u.back
  }

  const ContentSuffix: string := "/content"
  const DownloadSuffix: string := "/download"

  /** `/api/public/media/<id>/download`. */
  function DefaultDownloadPath(mediaId: string): (r: string)
    ensures EndsWith(r, DownloadSuffix)
  {
    var r := "/api/public/media/" + mediaId + DownloadSuffix;
    assert r[|r| - |DownloadSuffix|..] == DownloadSuffix;
    r
  }

  /** The pathname a download link gets: a path ending in "/content" with
      that suffix replaced by "/download", any other path replaced by the
      default. */
  function DownloadPath(mediaId: string, pathname: string): (r: string)
    ensures EndsWith(r, DownloadSuffix)
    ensures EndsWith(pathname, ContentSuffix) ==>
      r == pathname[..|pathname| - |ContentSuffix|] + DownloadSuffix
    ensures !EndsWith(pathname, ContentSuffix) ==> r == DefaultDownloadPath(mediaId)
  {
    if EndsWith(pathname, ContentSuffix) then
      var r := pathname[..|pathname| - |ContentSuffix|] + DownloadSuffix;
      assert r[|r| - |DownloadSuffix|..] == DownloadSuffix;
      r
    else DefaultDownloadPath(mediaId)
  }

  /** `toMediaDownloadUrl`: the default path without a content URL or when
      it does not parse (`parseUrl` stands for `new URL(url, origin)`);
      otherwise the parsed URL with its pathname changed by `DownloadPath`. */
  function ToMediaDownloadUrl(mediaId: string, contentUrl: Option<string>, parseUrl: string -> Option<Url>): (r: string)
    ensures contentUrl.None? || contentUrl.value == "" ==> r == DefaultDownloadPath(mediaId)
    ensures contentUrl.Some? && contentUrl.value != "" && parseUrl(contentUrl.value).None? ==>
      r == DefaultDownloadPath(mediaId)
    ensures contentUrl.Some? && contentUrl.value != "" && parseUrl(contentUrl.value).Some? ==>
      var u := parseUrl(contentUrl.value).value;
      r == UrlString(u.(pathname := DownloadPath(mediaId, u.pathname)))
  {
    if contentUrl.None? || contentUrl.value == "" then DefaultDownloadPath(mediaId)
    else
      match parseUrl(contentUrl.value)
      case None => DefaultDownloadPath(mediaId)
      case Some(u) => UrlString(u.(pathname := DownloadPath(mediaId, u.pathname)))
  }

  /** A stored file's content URL becomes its download URL: only the last
      path segment changes. */
  lemma ContentBecomesDownload(mediaId: string, dir: string)
    ensures DownloadPath(mediaId, dir + ContentSuffix) == dir + DownloadSuffix
  {
    var p := dir + ContentSuffix;
    assert p[|p| - |ContentSuffix|..] == ContentSuffix;
    assert p[..|p| - |ContentSuffix|] == dir;
  }

  // ---------------------------------------------------------------------
  // Toolbar handlers

  /** What a handler runs on the editor. */
  datatype Command =
    | SetLink(href: string)
    | UnsetLink
    | InsertImage(src: string, alt: string, title: string)
    | InsertMathInline(formula: string)
    | InsertMathBlock(formula: string)
    | InsertFileLink(text: string, href: string)
    | SetFontSize(size: string)
    | UnsetFontSize
    | SetFontFamily(family: string)
    | UnsetFontFamily

  /** `ready` is "the editor exists and is not disabled". */
  function HandleSetLink(ready: bool, input: Option<string>): (r: Option<Command>)
    ensures !ready || input.None? ==> r.None?
    ensures ready && input.Some? ==>
      r == Some(if AllSpace(input.value) then UnsetLink else SetLink(NormalizeLink(input.value)))
    ensures r.Some? && r.value.SetLink? ==> r.value.href != "" && HasScheme(r.value.href)
  {
    if !ready || input.None? then None
    else
      var url := NormalizeLink(input.value);
      if url == "" then Some(UnsetLink) else Some(SetLink(url))
  }

  /** `handleInsertImageByUrl`: the trimmed URL, or nothing when blank. */
  function HandleInsertImageByUrl(ready: bool, input: Option<string>): (r: Option<Command>)
    ensures r.Some? <==> ready && input.Some? && !AllSpace(input.value)
    ensures r.Some? ==> r.value == InsertImage(Trim(input.value), "", "")
  {
    if !ready || input.None? then None
    else
      var src := Trim(input.value);
      if src == "" then None else Some(InsertImage(src, "", ""))
  }

  /** `handleInsertInlineMath` (`block` false) and `handleInsertBlockMath`:
      the sanitised formula, or nothing when it is empty. */
  function HandleInsertMath(ready: bool, input: Option<string>, block: bool): (r: Option<Command>)
    ensures r.Some? <==> ready && input.Some? && SanitizeMathFormula(input.value) != ""
    ensures r.Some? && block ==> r.value == InsertMathBlock(SanitizeMathFormula(input.value))
    ensures r.Some? && !block ==> r.value == InsertMathInline(SanitizeMathFormula(input.value))
  {
    if !ready || input.None? then None
    else
      var formula := SanitizeMathFormula(input.value);
      if formula == "" then None
      else if block then Some(InsertMathBlock(formula))
      else Some(InsertMathInline(formula))
  }

  /** A media upload as the API answers it; absent or empty fields are "". */
  datatype Uploaded = Uploaded(id: string, url: Option<string>, alt: string, title: string, originalFileName: string)

  /** `a || b`. */
  function Or(a: string, b: string): (r: string)
    ensures a != "" ==> r == a
    ensures a == "" ==> r == b
  {
    if a != "" then a else b
  }

  /** The image inserted after an upload: the uploaded URL, the alt text
      falling back to the title and then the file name, the title falling
      back to the file name. */
  function UploadedImage(uploaded: Uploaded, fileName: string): (r: Command)
    ensures r.InsertImage? && r.src == uploaded.url.GetOr("")
    ensures r.alt == Or(uploaded.alt, Or(uploaded.title, fileName))
    ensures r.title == Or(uploaded.title, fileName)
  {
    InsertImage(uploaded.url.GetOr(""), Or(uploaded.alt, Or(uploaded.title, fileName)), Or(uploaded.title, fileName))
  }

  /** The linked paragraph inserted after a file upload: the title, else
      the original file name, else the local file name, linked to the
      download URL. */
  function UploadedFileLink(uploaded: Uploaded, fileName: string, parseUrl: string -> Option<Url>): (r: Command)
    ensures r.InsertFileLink?
    ensures r.text == Or(uploaded.title, Or(uploaded.originalFileName, fileName))
    ensures r.href == ToMediaDownloadUrl(uploaded.id, uploaded.url, parseUrl)
  {
    InsertFileLink(Or(uploaded.title, Or(uploaded.originalFileName, fileName)),
                   ToMediaDownloadUrl(uploaded.id, uploaded.url, parseUrl))
  }

  /** `handleSetFontSize`: "default" clears the size, anything else sets it. */
  function HandleSetFontSize(ready: bool, value: string): (r: Option<Command>)
    ensures !ready ==> r.None?
    ensures ready && value == "default" ==> r == Some(UnsetFontSize)
    ensures ready && value != "default" ==> r == Some(SetFontSize(value))
  {
    if !ready then None
    else if value == "default" then Some(UnsetFontSize)
    else Some(SetFontSize(value))
  }

  /** `handleSetFontFamily`: "default" clears the family, anything else sets it. */
  function HandleSetFontFamily(ready: bool, value: string): (r: Option<Command>)
    ensures !ready ==> r.None?
    ensures ready && value == "default" ==> r == Some(UnsetFontFamily)
    ensures ready && value != "default" ==> r == Some(SetFontFamily(value))
  {
    if !ready then None
    else if value == "default" then Some(UnsetFontFamily)
    else Some(SetFontFamily(value))
  }
}
