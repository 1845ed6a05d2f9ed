/** The conversion between a post's stored content and the rich-text
    editor: which initial content the editor receives, and the content
    fields a save sends. `JSON.parse` is a parameter that classifies the
    parsed value. */
module EditorContent {
  import opened Text

  /** What `tryParseJson` yields, as far as these functions look at it:
      `null` (also when parsing throws), a falsy value, an object (arrays
      included) with its `type` and `raw` fields when they are strings, or
      another truthy value. */
  datatype Parsed =
    | Nothing
    | Falsy
    | Record(typeTag: Option<string>, rawText: Option<string>)
    | Truthy

  predicate IsTruthy(p: Parsed) {
    p.Record? || p.Truthy?
  }

  /** The content handed to the editor: a string (HTML or plain text), or
      the ProseMirror document parsed from `json`. */
  datatype InitialContent = TextContent(text: string) | Doc(json: string)

  /** `<` (optionally `</`) followed by an ASCII letter opens a tag at `i`. */
  predicate TagOpensAt(raw: string, i: nat) {
    i + 1 < |raw| && raw[i] == '<'
    && (IsAsciiLetter(raw[i + 1]) || (raw[i + 1] == '/' && i + 2 < |raw| && IsAsciiLetter(raw[i + 2])))
  }

  /** `>` occurs at or after index `from`. */
  function CloseFrom(raw: string, from: nat): (r: bool)
    ensures r <==> exists k :: from <= k < |raw| && raw[k] == '>'
    decreases |raw| - from
  {
    if from >= |raw| then false
    else raw[from] == '>' || CloseFrom(raw, from + 1)
  }

  /** A tag opens at `i` and a `>` follows the letter after it. */
  predicate TagAt(raw: string, i: nat) {
    TagOpensAt(raw, i) && CloseFrom(raw, if raw[i + 1] == '/' then i + 3 else i + 2)
  }

  /** `/<\/?[a-z][\s\S]*>/i.test(raw)`, searched from index `from`. */
  function HtmlFrom(raw: string, from: nat): (r: bool)
    ensures r <==> exists i :: from <= i < |raw| && TagAt(raw, i)
    decreases |raw| - from
  {
    if from >= |raw| then false
    else TagAt(raw, from) || HtmlFrom(raw, from + 1)
  }

  /** `looksLikeHtml`. */
  function LooksLikeHtml(raw: string): (r: bool)
    ensures r <==> exists i :: 0 <= i < |raw| && TagAt(raw, i)
  {
    HtmlFrom(raw, 0)
  }

  /** Text with no `<` never looks like HTML. */
  lemma NoAngleNoHtml(raw: string)
    requires forall k :: 0 <= k < |raw| ==> raw[k] != '<'
    ensures !LooksLikeHtml(raw)
  {
  }

  /** `toEditorInitialContent`: "" for missing or blank input; the parsed
      document for a JSON object of type `doc`; the `raw` field of a JSON
      object of type `text`; otherwise the trimmed input when it looks like
      HTML and the input as given when it does not. */
  function ToEditorInitialContent(raw: Option<string>, parse: string -> Parsed): (r: InitialContent)
    ensures raw.None? || AllSpace(raw.value) ==> r == TextContent("")
    ensures raw.Some? && !AllSpace(raw.value) ==>
      var trimmed := Trim(raw.value);
      var parsed := parse(trimmed);
      && (parsed.Record? && parsed.typeTag == Some("doc") ==> r == Doc(trimmed))
      && (parsed.Record? && parsed.typeTag == Some("text") && parsed.rawText.Some? ==>
            r == TextContent(parsed.rawText.value))
      && (!(parsed.Record? && (parsed.typeTag == Some("doc") || (parsed.typeTag == Some("text") && parsed.rawText.Some?))) ==>
            r == TextContent(if LooksLikeHtml(trimmed) then trimmed else raw.value))
  {
    if raw.None? || raw.value == "" then TextContent("")
    else
      var trimmed := Trim(raw.value);
      if trimmed == "" then TextContent("")
      else
        var parsed := parse(trimmed);
        if parsed.Record? && parsed.typeTag == Some("doc") then Doc(trimmed)
        else if parsed.Record? && parsed.typeTag == Some("text") && parsed.rawText.Some? then
          TextContent(parsed.rawText.value)
        else if LooksLikeHtml(trimmed) then TextContent(trimmed)
        else TextContent(raw.value)
  }

  /** What the editor reports on every change. */
  datatype Snapshot = Snapshot(html: string, json: string, text: string)

  /** The content fields of a post save. */
  datatype Payload = Payload(contentJson: string, contentHtml: string, contentText: string, content: string, contentMd: string)

  /** `defaultDocJson()`: a document holding one empty paragraph. */
  const DefaultDocJson: string := ['{'] + "\"type\":\"doc\",\"content\":[{\"type\":\"paragraph\"}]" + ['}']

  const EmptyParagraph: string := "<p></p>"

  /** `toPostPayloadFromEditor`: the trimmed HTML ("<p></p>" when blank) in
      the three HTML fields, the text as reported, and the trimmed JSON when
      it parses to a truthy value, the default document otherwise. */
  function ToPostPayload(snapshot: Snapshot, parse: string -> Parsed): (r: Payload)
    ensures r.contentHtml == (if AllSpace(snapshot.html) then EmptyParagraph else Trim(snapshot.html))
    ensures r.content == r.contentHtml && r.contentMd == r.contentHtml
    ensures r.contentHtml != "" && IsTrimmed(r.contentHtml)
    ensures r.contentText == snapshot.text
    ensures AllSpace(snapshot.json) ==> r.contentJson == DefaultDocJson
    ensures !AllSpace(snapshot.json) ==>
      r.contentJson == (if IsTruthy(parse(Trim(snapshot.json))) then Trim(snapshot.json) else DefaultDocJson)
  {
    var html := if Trim(snapshot.html) == "" then EmptyParagraph else Trim(snapshot.html);
    var json := if Trim(snapshot.json) == "" then DefaultDocJson else Trim(snapshot.json);
    var contentJson := if IsTruthy(parse(json)) then json else DefaultDocJson;
    Payload(contentJson, html, snapshot.text, html, html)
  }

  /** The snapshot an editor showing a saved payload would report. */
  function Reloaded(p: Payload): Snapshot {
    Snapshot(p.contentHtml, p.contentJson, p.contentText)
  }

  /** Saving what was saved changes nothing: the payload is a fixed point. */
  lemma PayloadIdempotent(snapshot: Snapshot, parse: string -> Parsed)
    ensures ToPostPayload(Reloaded(ToPostPayload(snapshot, parse)), parse) == ToPostPayload(snapshot, parse)
  {
    var p := ToPostPayload(snapshot, parse);
    TrimOfTrimmed(p.contentHtml);
    TrimOfTrimmed(DefaultDocJson);
    TrimOfTrimmed(p.contentJson);
    assert p.contentJson != "";
  }

  /** Trimmed HTML that is not JSON reaches the editor unchanged. */
  lemma HtmlReachesEditor(html: string, parse: string -> Parsed)
    requires IsTrimmed(html) && LooksLikeHtml(html) && !parse(html).Record?
    ensures ToEditorInitialContent(Some(html), parse) == TextContent(html)
  {
    TrimOfTrimmed(html);
  }
}
