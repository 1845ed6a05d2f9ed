# A verified model of the blog front end's core logic

This project models, in Dafny, the logic at the heart of a Next.js blog front end:
- the public pages, which run over mock articles and gallery images;
- the admin area, where posts, sections, the gallery and the front-page composition are edited;
- the server-side routes that proxy the admin area's calls to a back end and keep its session in cookies.

The model has one module per source file, and each keeps the source's own form:
- pure helpers become functions with contracts;
- component state and module-level state become classes whose methods change the fields the handlers change;
- loops become methods with invariants, proved equal to a specification function.

Five shared modules support them:
- `Text`: trimming, ASCII case mapping and splitting;
- `Lists`: JavaScript's `filter`, `find`, `slice` and de-duplication through a `Set`;
- `Ordering`: a stable sort by a numeric key;
- `Slugs`: the slug and section-key rule shared by the post editors and the category manager;
- `MockData`: the article record and its queries, which the pages share.

The model calls no foreign code. Anything it cannot see appears as a parameter:
- each back-end call, given as its outcome;
- `JSON.parse`, `new URL`, `Date` and `parseInt`;
- the confirmation and prompt dialogs;
- clocks and random values.

Main facts proved:
- **Math scanner.** The math-delimiter scanner agrees with its recursive specification, and its segments are well formed. The Turndown math rules round-trip through it.
- **Proxy.** It answers 500, 401 or 403 before any upstream call whenever the source does. It sends upstream at most twice. Cookies are re-issued only after a refresh and cleared on a final 401.
- **Front page.** Every optimistic update keeps the positions numbered 1..n, and a failed call restores the composition.
- **Slugs.** They contain only `a-z`, `0-9` and single inner dashes, and generating a slug is idempotent.
- **Lists, grouping and pagination.**
  - The list queries return exactly the items their filters describe, in order.
  - The archive grouping puts each article in exactly one group, and the group sizes add up to the count shown.
  - Gallery paging shows every image on exactly one page.

## Model

| member | source | states |
|---|---|---|
| MarkdownTransforms.SlashRun | src/lib/markdownTransforms.ts:48-51 | the counted run is maximal: every counted character is a backslash and the one before the run is not |
| MarkdownTransforms.IsEscaped | src/lib/markdownTransforms.ts:47-53 | the loop answers true exactly when an odd number of consecutive backslashes stands right before the index |
| MarkdownTransforms.FindClose | src/lib/markdownTransforms.ts:55-75 | the closer is -1 or lies between `from` and the end of the text; a block closer leaves room for its second `$` |
| MarkdownTransforms.FindCloseSpec | src/lib/markdownTransforms.ts:55-75 | block: the smallest index at or after `from` holding `$$` with an unescaped first `$`, at most two before the end, or -1 when none; inline: the first unescaped `$` with no `$` beside it and no line break before it, or -1 |
| MarkdownTransforms.FindClosingDelimiter | src/lib/markdownTransforms.ts:55-75 | both scanning loops return exactly the closer `FindCloseSpec` characterises |
| MarkdownTransforms.AppendPlain | src/lib/markdownTransforms.ts:77-81 | no pending chunks: the segments stay; otherwise one text segment of the joined chunks is appended and the chunks are emptied |
| MarkdownTransforms.StepAt | src/lib/markdownTransforms.ts:89-116 | a step that is not a plain character moves strictly forward within the input; a math step carries a non-empty trimmed formula |
| MarkdownTransforms.StepAtPlain | src/lib/markdownTransforms.ts:89-94 | a character that is not an unescaped `$` is kept as plain text |
| MarkdownTransforms.StepAtDollar | src/lib/markdownTransforms.ts:96-116 | at an unescaped `$`: no closer keeps the `$` as text; a blank formula copies the whole pair verbatim; otherwise a block or inline segment of the trimmed formula, resuming after the closer |
| MarkdownTransforms.StepClosed | src/lib/markdownTransforms.ts:104-116 | once the closer is found the scan resumes just past it; a blank body is kept verbatim exactly when its trimmed text is empty, otherwise the segment is the trimmed body of the block or inline kind the opener chose |
| MarkdownTransforms.ScanAt | src/lib/markdownTransforms.ts:89-116 | one pass of the loop body performs exactly the step `StepAt` describes |
| MarkdownTransforms.ParseMathSegments | src/lib/markdownTransforms.ts:83-121 | the loop returns the recursive scan's segments, and they are well formed: math values non-empty and trimmed, text values non-empty, no two text segments adjacent |
| MarkdownTransforms.ParseFromWellFormed | src/lib/markdownTransforms.ts:88-120 | scanning from any index keeps the segments well formed when they start so |
| MarkdownTransforms.SegmentsWellFormed | src/lib/markdownTransforms.ts:83-121 | every input's segments are well formed |
| MarkdownTransforms.NoDelimiterIsText | src/lib/markdownTransforms.ts:88-94 | text without an unescaped `$` gives no segment when empty and one text segment equal to the input otherwise |
| MarkdownTransforms.InlineStep | src/lib/markdownTransforms.ts:96-116 | at `$body$` with no `$`, no line break and no trailing backslash inside, the step is a verbatim copy for a blank body and an inline segment of the trimmed body otherwise |
| MarkdownTransforms.BlockStep | src/lib/markdownTransforms.ts:96-116 | at `$$body$$` with no `$` inside, the step is a verbatim copy for a blank body and a block segment of the trimmed body otherwise |
| MarkdownTransforms.TurndownInline | src/lib/markdownTransforms.ts:28-32 | an empty formula gives ""; otherwise the formula wrapped in one `$` on each side |
| MarkdownTransforms.TurndownBlock | src/lib/markdownTransforms.ts:40-44 | an empty formula gives ""; otherwise the formula between five fixed characters on each side |
| MarkdownTransforms.InlineRoundTrip | src/lib/markdownTransforms.ts:31 | a non-blank formula with no `$`, no line break and no trailing backslash, emitted by the inline rule, parses back to one inline segment of the trimmed formula |
| MarkdownTransforms.BlockRoundTrip | src/lib/markdownTransforms.ts:43 | a non-blank formula with no `$`, emitted by the block rule, parses back to text "\n\n", a block of the trimmed formula, text "\n\n" |
| MarkdownTransforms.BlankInlinePairIsText | src/lib/markdownTransforms.ts:104-109 | `$w$` with only white space (no line break) inside stays one text segment, verbatim |
| MarkdownTransforms.BlankBlockPairIsText | src/lib/markdownTransforms.ts:104-109 | `$$w$$` with only white space inside stays one text segment, verbatim |
| MarkdownTransforms.IsSkippedTag | src/lib/markdownTransforms.ts:123-126 | true exactly when the tag equals pre, code, script or style ignoring ASCII case |
| MarkdownTransforms.SkippedTagIgnoresCase | src/lib/markdownTransforms.ts:123-126 | an upper-cased tag name is skipped exactly when the original is |
| MarkdownTransforms.TagEnd | src/lib/markdownTransforms.ts:202 | the first `>` at or after the start, or 0 when there is none |
| MarkdownTransforms.StripTags | src/lib/markdownTransforms.ts:202 | text without both `<` and `>` is unchanged; a first character other than `<` is kept; no tag `<…>` with at least one character inside is left |
| MarkdownTransforms.StripOneTag | src/lib/markdownTransforms.ts:202 | a tag with at least one non-`>` character inside, after text without `<`, becomes exactly one space and the rest is stripped in turn |
| MarkdownTransforms.CollapseSpace | src/lib/markdownTransforms.ts:202 | no two white-space characters in a row remain, and a leading one only where the input began with one |
| MarkdownTransforms.CollapseSpaceSplit | src/lib/markdownTransforms.ts:202 | the result is the input cut at white space with the empty pieces between its first and last dropped, joined with single spaces: the other characters stay in order and each run of white space becomes one space |
| MarkdownTransforms.PlainTextWords | src/lib/markdownTransforms.ts:202 | collapsing and then trimming gives the white-space-free words of the input joined by single spaces |
| MarkdownTransforms.ExtractPlainTextOnServer | src/lib/markdownTransforms.ts:197-203 | the words of the trimmed input with its tags stripped, joined by single spaces; so blank input gives "", and every result is trimmed and holds no two white-space characters in a row |
| FrontPageManager.NormalizeKey | src/app/admin/components/FrontPageManager.tsx:67-71 | the result equals the trimmed value (or the trimmed "" when missing) ignoring ASCII case, is trimmed, holds no upper-case ASCII letter, and is empty exactly when the value is missing or blank |
| FrontPageManager.NormalizeKeyIdempotent | src/app/admin/components/FrontPageManager.tsx:67-71 | normalising a normalised key changes nothing |
| FrontPageManager.SectionNameFromKey | src/app/admin/components/FrontPageManager.tsx:73-84 | editorial, diary and notes (in any case, padded or not) give Editorial, Diary and Notes; "" gives Unknown; any other key its upper-cased self |
| FrontPageManager.SectionKeyFromPost | src/app/admin/components/FrontPageManager.tsx:86-99 | a string section is normalised; an object section normalises its key, or its name when the key is missing or empty; no section gives "" |
| FrontPageManager.ToPreview | src/app/admin/components/FrontPageManager.tsx:105-119 | the preview keeps id, title and slug and carries the section key and its display name |
| FrontPageManager.IndexOfFrom | src/app/admin/components/FrontPageManager.tsx:124 | the first occurrence at or after the start, or -1 when there is none |
| FrontPageManager.RawMessage | src/app/admin/components/FrontPageManager.tsx:123 | never empty; a non-empty message is kept |
| FrontPageManager.NormalizeErrorMessage | src/app/admin/components/FrontPageManager.tsx:121-136 | a non-Error gives "Unknown error"; the `message` of the JSON after the first `: {` when it parses to a non-empty one; the raw message otherwise |
| FrontPageManager.EmbeddedMessage | src/app/admin/components/FrontPageManager.tsx:121-136 | "prefix: {json" whose JSON carries a message yields that message |
| FrontPageManager.IsConflictError | src/app/admin/components/FrontPageManager.tsx:138-141 | true exactly when the normalised message contains 409, conflict or stale at some position, ignoring ASCII case |
| FrontPageManager.ConflictInAnyCase | src/app/admin/components/FrontPageManager.tsx:138-141 | a message ending in CONFLICT is a conflict whatever its case |
| FrontPageManager.Renumbered | src/app/admin/components/FrontPageManager.tsx:454 | each item keeps everything but its position, which becomes its index plus one |
| FrontPageManager.RenumberedShape | src/app/admin/components/FrontPageManager.tsx:454 | renumbered positions run 1..n and nothing else about the items changes |
| FrontPageManager.SetLead | src/app/admin/components/FrontPageManager.tsx:446-460 | the lead becomes the post, no supporting item keeps its id, the others keep their order with positions 1..n, and the composition stays well formed |
| FrontPageManager.WithoutLead | src/app/admin/components/FrontPageManager.tsx:462-473 | the lead is cleared and nothing else changes |
| FrontPageManager.RemoveLead | src/app/admin/components/FrontPageManager.tsx:462-473 | clearing the lead keeps the composition well formed |
| FrontPageManager.AddSupporting | src/app/admin/components/FrontPageManager.tsx:487-504 | a permitted add keeps the earlier items, appends the new one with position n + 1, and keeps the composition well formed |
| FrontPageManager.RemoveSupporting | src/app/admin/components/FrontPageManager.tsx:521-534 | the items with that id go, the rest keep their order with positions 1..n, and the composition stays well formed |
| FrontPageManager.ArrayMove | src/app/admin/components/FrontPageManager.tsx:545 | same length, and the moved element lands at the target index |
| FrontPageManager.ArrayMoveAt | src/app/admin/components/FrontPageManager.tsx:545 | every index of the result reads the source at the shifted index |
| FrontPageManager.ArrayMovePermutes | src/app/admin/components/FrontPageManager.tsx:545 | the move is a permutation |
| FrontPageManager.FindItem | src/app/admin/components/FrontPageManager.tsx:541-542 | the first index with that id, or -1 exactly when no item has the id |
| FrontPageManager.Dragged | src/app/admin/components/FrontPageManager.tsx:536-549 | no target, the same item, or an unknown id gives no reorder; two different known ids always give one, the list with the item moved and renumbered |
| FrontPageManager.DragReorders | src/app/admin/components/FrontPageManager.tsx:536-556 | a drag permutes the items, renumbers them 1..n, puts the dragged item at the target index, and keeps the composition well formed |
| FrontPageManager.Received | src/app/admin/components/FrontPageManager.tsx:243-249 | a loaded composition is marked SAVED and its items are a permutation of the loaded ones, sorted by position |
| FrontPageManager.ReceivedNumbered | src/app/admin/components/FrontPageManager.tsx:243-249 | items already numbered 1..n come back in the same order |
| FrontPageManager.Without | src/app/admin/components/FrontPageManager.tsx:516-517 | the id is gone, every other id stays, and a list without it is unchanged |
| FrontPageManager.WithoutDistinct | src/app/admin/components/FrontPageManager.tsx:516-517 | removing an id keeps the pending list free of repeats |
| FrontPageManager.WithoutAppended | src/app/admin/components/FrontPageManager.tsx:485-518 | adding an id that was not pending and removing it again restores the list |
| FrontPageManager.Manager.constructor | src/app/admin/components/FrontPageManager.tsx:206-224 | no composition, not saving, no banner or toast, a closed picker on its first page, nothing pending |
| FrontPageManager.Manager.Bootstrap | src/app/admin/components/FrontPageManager.tsx:251-278 | the first load shows the loaded composition, sorted by position, or on failure keeps the composition and shows the normalised error banner; the picker, toast, pending list and calls are untouched |
| FrontPageManager.Manager.BeginMutation | src/app/admin/components/FrontPageManager.tsx:398-408 | the snapshot is the composition before the update; the update is applied, saving starts, banner and toast clear, one call with the snapshot's version |
| FrontPageManager.Manager.FinishMutation | src/app/admin/components/FrontPageManager.tsx:410-443 | success: the reloaded composition and a success banner; a conflict: the reloaded composition or the snapshot and the conflict banner; any other failure: the composition as it was and the normalised message; saving ends; the modal toast repeats the banner while the picker is open and is untouched otherwise |
| FrontPageManager.Manager.RunMutation | src/app/admin/components/FrontPageManager.tsx:393-444 | nothing without a composition; otherwise one call with the current version and then success: the reloaded composition and a success banner; a conflict: the reloaded composition or the snapshot and the conflict banner; any other failure: the composition as it was and the normalised message; saving ends |
| FrontPageManager.Manager.HandleSetLead | src/app/admin/components/FrontPageManager.tsx:446-460 | one `setFeaturedPost` call with the current version; then success: the reloaded composition and a success banner; a conflict: the reloaded composition or the snapshot and the conflict banner; any other failure: the composition as it was and the normalised message; saving ends with "Lead updated" |
| FrontPageManager.Manager.HandleRemoveLead | src/app/admin/components/FrontPageManager.tsx:462-473 | one `removeFeaturedPost` call with the current version; then success: the reloaded composition and a success banner; a conflict: the reloaded composition or the snapshot and the conflict banner; any other failure: the composition as it was and the normalised message; saving ends with "Lead removed" |
| FrontPageManager.Manager.HandleAddSupporting | src/app/admin/components/FrontPageManager.tsx:475-519 | six items: only the error toast; the lead, a supporting post or a pending one: nothing; otherwise one `addCuratedPost` at position n + 1 and then success: the reloaded composition and a success banner; a conflict: the reloaded composition or the snapshot and the conflict banner; any other failure: the composition as it was and the normalised message; saving ends with "Added to supporting"; the pending list is as before afterwards |
| FrontPageManager.Manager.SubmitSupporting | src/app/admin/components/FrontPageManager.tsx:485-518 | one `addCuratedPost` call with the current version and the outcome of the mutation with "Added to supporting"; the post is pending during the call and the pending list is as it was afterwards |
| FrontPageManager.Manager.ReleasePending | src/app/admin/components/FrontPageManager.tsx:516-518 | the post leaves the pending list and nothing else changes |
| FrontPageManager.Manager.HandleRemoveSupporting | src/app/admin/components/FrontPageManager.tsx:521-534 | one `deleteFrontPageItem` call with the current version; then success: the reloaded composition and a success banner; a conflict: the reloaded composition or the snapshot and the conflict banner; any other failure: the composition as it was and the normalised message; saving ends with "Supporting story removed" |
| FrontPageManager.Manager.HandleDragEnd | src/app/admin/components/FrontPageManager.tsx:536-556 | a no-op drag changes nothing; otherwise one reorder call with the ids in their new order and then success: the reloaded composition and a success banner; a conflict: the reloaded composition or the snapshot and the conflict banner; any other failure: the composition as it was and the normalised message; saving ends with "Order updated" |
| FrontPageManager.Manager.ResetPickerState | src/app/admin/components/FrontPageManager.tsx:558-566 | empty query, first page of one page, no posts, all sections, no toast, nothing pending; the composition untouched |
| FrontPageManager.Manager.OpenPicker | src/app/admin/components/FrontPageManager.tsx:568-576 | the picker opens reset, in the requested mode |
| FrontPageManager.Manager.ClosePicker | src/app/admin/components/FrontPageManager.tsx:578-581 | the picker closes reset, by the close button or the Escape key |
| ApiProxy.WithInternalProxyHeaders | src/app/api/_utils/proxy.ts:37-43 | the proxy key header is set to the key when one is configured; otherwise the headers are returned unchanged |
| ApiProxy.Copied | src/app/api/_utils/proxy.ts:66-85 | a header is copied exactly when it is in the allowed list and the source holds a non-empty value for it, and it keeps that value |
| ApiProxy.PassthroughHeaders | src/app/api/_utils/proxy.ts:66-85 | the loop over the passthrough names builds exactly the copy of the allowed non-empty response headers |
| ApiProxy.Bearer | src/app/api/_utils/proxy.ts:110-134 | an authorization header `Bearer <token>` is present exactly when there is a token, and it is the only header added |
| ApiProxy.UpstreamHeadersForwarded | src/app/api/_utils/proxy.ts:110-134 | each forwarded request header reaches the back end exactly when it is present and non-empty, with its value unchanged |
| ApiProxy.UpstreamHeadersAdded | src/app/api/_utils/proxy.ts:110-134 | authorization appears exactly when there is a token, the proxy key exactly when one is configured, and no other header is sent |
| ApiProxy.BuildUpstreamHeaders | src/app/api/_utils/proxy.ts:110-134 | the header-building loop produces exactly the upstream header map described by the two lemmas above |
| ApiProxy.FrontPageVersionSpellings | src/app/api/_utils/proxy.ts:123-125 | the two spellings of the front-page version header read the same value, because header names ignore case |
| ApiProxy.IsMutatingMethod | src/app/api/_utils/proxy.ts:35-47 | a method mutates exactly when it equals POST, PUT, PATCH or DELETE ignoring ASCII case |
| ApiProxy.MutatingIgnoresCase | src/app/api/_utils/proxy.ts:45-47 | lower-casing a method name does not change whether it mutates |
| ApiProxy.ReadsAreNotMutating | src/app/api/_utils/proxy.ts:35-47 | GET and HEAD are not mutating |
| ApiProxy.NormalizeBePath | src/app/api/_utils/proxy.ts:156 | the back-end path always starts with a slash, and a path that already has one is kept as it is |
| ApiProxy.PolicyFor | src/app/api/_utils/proxy.ts:156-163 | each option given wins; by default a session is needed exactly on the admin paths and the current-user path, with or without the leading slash, CSRF exactly where a session is needed and the method mutates in any letter case, and a refresh after 401 exactly where a session is needed |
| ApiProxy.AuthByDefaultWithoutSlash | src/app/api/_utils/proxy.ts:156-161 | the default session test accepts a path with or without its leading slash |
| ApiProxy.DefaultPolicy | src/app/api/_utils/proxy.ts:159-163 | without options, a session is required for the admin paths and the session endpoint, CSRF is enforced on mutating methods of those routes, and refresh is allowed where a session is required |
| ApiProxy.ExplicitOptionsWin | src/app/api/_utils/proxy.ts:159-163 | each option given by the caller overrides its default |
| ApiProxy.BePathSlashOptional | src/app/api/_utils/proxy.ts:156-161 | a path with or without its leading slash gets the same default session requirement |
| ApiProxy.NumberOr | src/app/api/_utils/proxy.ts:55-58 | a non-zero number is kept and a missing or zero one becomes the fallback, so the result is never zero unless the fallback is |
| ApiProxy.ParseAuthPayload | src/app/api/_utils/proxy.ts:49-64 | a payload is accepted exactly when the body is non-empty, parses, and holds an access token, a refresh token and a user; the accepted tokens are copied, the type is Bearer and missing lifetimes default to 900 s and 7 days |
| ApiProxy.ParsedDefaultsGiveDefaultLifetimes | src/app/api/_utils/proxy.ts:55-58 | the defaults filled in on parsing and those the cookies fall back to agree: a parsed payload gets the cookie lifetimes of its raw expiries and 900 or 604800 seconds for a missing one |
| ApiProxy.CollapseSlashes | src/app/api/_utils/proxy.ts:12 | runs of slashes collapse to one: the result holds the same characters other than slashes in the same order, never two slashes in a row, and keeps the first and last characters; `CollapseSlashesSplit` states where the slashes stay |
| ApiProxy.CollapseSlashesSplit | src/app/api/_utils/proxy.ts:12 | collapsing keeps the pieces between slashes, dropping the empty ones between the first and the last: the result is those pieces joined by single slashes |
| ApiProxy.DropTrailingSlashes | src/app/api/_utils/proxy.ts:12 | the result is the input without its final run of slashes: a prefix not ending in a slash, followed in the input only by slashes |
| ApiProxy.NormalizeBaseUrl | src/app/api/_utils/proxy.ts:6-18 | a blank setting gives ""; an unparsable one loses only its trailing slashes; a parsable one is its origin followed by the path with slash runs collapsed and trailing slashes dropped |
| ApiProxy.NormalizedPathShape | src/app/api/_utils/proxy.ts:12-13 | the normalised path is never "/", never ends in a slash and holds no double slash |
| ApiProxy.RefreshAccessToken | src/app/api/_utils/proxy.ts:87-108 | nothing is called without a back end or a refresh token; otherwise one refresh call carries the refresh token to /api/auth/refresh, and tokens come back only from an ok reply with an accepted payload |
| ApiProxy.ProxyToBE | src/app/api/_utils/proxy.ts:142-217 | no back end gives 500 and no calls; a required session with no token gives 401, cleared cookies and no calls; an enforced CSRF check that fails gives 403 and no calls; otherwise the request is forwarded as the forwarding rules state |
| ApiProxy.CsrfMatches | src/app/api/_utils/proxy.ts:173-178 | the check passes exactly when the CSRF header and the CSRF cookie are both present, the header is non-empty and the two are equal |
| ApiProxy.Forward | src/app/api/_utils/proxy.ts:181-214 | one send with the stored token, one refresh on an allowed 401 with a refresh token, one resend when new tokens came back; the last reply's status, body and allowed headers are returned, new tokens set the cookies and a 401 on a session route clears them |
| ApiProxy.Exchange | src/app/api/_utils/proxy.ts:184-201 | the calls made, the tokens obtained and the reply kept are exactly those of the send, refresh and retry rules |
| ApiProxy.AtMostOneRetry | src/app/api/_utils/proxy.ts:193-201 | at most three calls: a first send to the target, a refresh only after an allowed 401, and a resend with an authorization header only after an ok refresh, in which case its status is the response's |
| ApiProxy.NoRefreshSendsOnce | src/app/api/_utils/proxy.ts:159-214 | with refresh disallowed exactly one call is made, the first status is returned, and the cookies are cleared only for a 401 on a session route |
| ApiProxy.RetryStill401ClearsCookies | src/app/api/_utils/proxy.ts:208-214 | a 401 on a session route clears every auth cookie even when a refresh produced tokens |
| ApiProxy.IssuedCookiesCarryRefreshedTokens | src/app/api/_utils/proxy.ts:208-210 | refreshed tokens, when not cleared, set the access, refresh and CSRF cookies to the new values |
| AuthCookies.CookieMaxAge | src/app/api/_utils/authCookies.ts:6-9 | a missing or non-positive lifetime gives the fallback; a positive one is rounded down to whole seconds |
| AuthCookies.RemoveDashes | src/app/api/_utils/authCookies.ts:13 | no dash is left and every other character is kept, as many times as before |
| AuthCookies.Base36Fraction | src/app/api/_utils/authCookies.ts:15 | one base-36 digit per random digit, each a digit or a lower-case letter |
| AuthCookies.GenerateCsrfToken | src/app/api/_utils/authCookies.ts:11-16 | the token never holds a dash, whether it comes from a UUID or from the two base-36 fractions |
| AuthCookies.AppliedCookies | src/app/api/_utils/authCookies.ts:18-48 | the access, refresh and CSRF cookies hold the tokens and the CSRF token, with path /, SameSite lax, lifetimes of the access token, the refresh token and the refresh token again, http-only except the CSRF cookie; other cookies are untouched |
| AuthCookies.ClearedCookies | src/app/api/_utils/authCookies.ts:50-55 | the three auth cookies are set empty with path / and lifetime 0, http-only except the CSRF cookie; other cookies are untouched |
| AuthCookies.ClearAfterApply | src/app/api/_utils/authCookies.ts:18-55 | clearing after applying leaves every auth cookie empty and expired |
| AuthCookies.ResponseCookies.ApplyAuthCookies | src/app/api/_utils/authCookies.ts:18-48 | the jar becomes the applied jar and the returned CSRF token is the generated one, free of dashes |
| AuthCookies.ResponseCookies.ClearAuthCookies | src/app/api/_utils/authCookies.ts:50-55 | the jar becomes the cleared jar |
| NetworkActivity.Deliveries | src/lib/networkActivity.ts:6-10 | notify calls every subscribed listener once, in order, with the current count |
| NetworkActivity.Without | src/lib/networkActivity.ts:33-35 | unsubscribing removes the listener and keeps every other one |
| NetworkActivity.WithoutNoDuplicates | src/lib/networkActivity.ts:33-35 | the listener collection stays a set after a removal |
| NetworkActivity.Decremented | src/lib/networkActivity.ts:24 | the count goes down by one but never below zero |
| NetworkActivity.BeginThenFinishRestores | src/lib/networkActivity.ts:16-27 | n requests begun and then finished bring a non-negative count back to where it was |
| NetworkActivity.FinishesFrom | src/lib/networkActivity.ts:21-26 | n finishes take a count of c + n back down to c |
| NetworkActivity.Activity.constructor | src/lib/networkActivity.ts:3-4 | the counter starts at zero with no listeners and nothing delivered |
| NetworkActivity.Activity.Notify | src/lib/networkActivity.ts:6-10 | one delivery of the current count per listener is appended, and nothing else changes |
| NetworkActivity.Activity.GetPendingCount | src/lib/networkActivity.ts:12-14 | the current count, which is never negative |
| NetworkActivity.Activity.BeginRequest | src/lib/networkActivity.ts:16-27 | the count goes up by one, listeners are told the new count, and a fresh not-yet-run finish callback is returned |
| NetworkActivity.Activity.Subscribe | src/lib/networkActivity.ts:29-32 | the listener is added once (a set) and is told the current count at once |
| NetworkActivity.Activity.Unsubscribe | src/lib/networkActivity.ts:33-35 | the returned callback removes just that listener and tells nobody |
| NetworkActivity.Activity.TrackedFetch | src/lib/trackedFetch.ts:11-16 | a tracked request in the browser leaves the count as it was, after telling the listeners the raised count and then the restored one |
| NetworkActivity.Finish.constructor | src/lib/networkActivity.ts:20-21 | a finish callback starts not done and tied to its counter |
| NetworkActivity.Finish.Run | src/lib/networkActivity.ts:21-26 | the first run lowers the count (never below zero) and notifies; any later run changes nothing |
| ProxyGuard.Proxy | src/proxy.ts:9-28 | a request is redirected to the login page exactly when it is under /admin, is not the login page, and carries neither an access nor a refresh cookie; everything else passes |
| ProxyGuard.TokenCookiePasses | src/proxy.ts:19-24 | a request with either token cookie always passes |
| ProxyGuard.MatcherWithinPrefix | src/proxy.ts:18-32 | every path the `/admin/:path*` matcher covers passes the guard's `/admin` prefix test |
| ProxyGuard.Routed | src/proxy.ts:9-32 | with the matcher, a request is redirected exactly when its path is /admin or below /admin/, is not the login page, and carries neither token cookie; every other request passes |
| ProxyGuard.PrefixMatchGuardsAdministrator | src/proxy.ts:18-32 | the prefix test alone would redirect /administrator, but the matcher keeps the guard from running there, so the request passes |
| MiddlewareGuard.Middleware | src/middleware.ts:8-26 | a request is redirected to the login page exactly when it is under /admin, is not the login page, and has no actor cookie |
| MiddlewareGuard.RoutedMiddleware | src/middleware.ts:8-30 | with the matcher, a request is redirected exactly when its path is /admin or below /admin/, is not the login page, and has no actor cookie |
| MiddlewareGuard.GuardsAgreeOutsideCookies | src/middleware.ts:12-23 | both guards pass the login page and paths outside /admin, and both pass a request carrying both cookies |
| EditorContent.CloseFrom | src/lib/editorContent.ts:23-25 | true exactly when a `>` occurs at or after the given position |
| EditorContent.HtmlFrom | src/lib/editorContent.ts:23-25 | true exactly when a tag opening (`<`, an optional `/`, a letter) at or after the position is followed later by `>` |
| EditorContent.LooksLikeHtml | src/lib/editorContent.ts:23-25 | true exactly when the text holds a tag opening followed somewhere later by `>` |
| EditorContent.NoAngleNoHtml | src/lib/editorContent.ts:23-25 | text without `<` never looks like HTML |
| EditorContent.ToEditorInitialContent | src/lib/editorContent.ts:42-64 | missing or blank content gives ""; a JSON document is used as a document; a JSON text record gives its raw text; otherwise HTML-looking content is trimmed and anything else is kept exactly as stored |
| EditorContent.ToPostPayload | src/lib/editorContent.ts:66-81 | the HTML is trimmed or `<p></p>` when blank and is sent as content, HTML and Markdown alike; the text is kept; the JSON is kept trimmed when it parses to a truthy value and replaced by the default document otherwise |
| EditorContent.PayloadIdempotent | src/lib/editorContent.ts:66-81 | building the payload again from a saved payload gives the same payload |
| EditorContent.HtmlReachesEditor | src/lib/editorContent.ts:42-64 | trimmed HTML that is not a JSON record reaches the editor unchanged |
| RichTextEditor.SerializeInitialContent | src/app/admin/components/RichTextEditor.tsx:109-116 | a string is its own key; a document is its JSON text, or "" when it cannot be stringified |
| RichTextEditor.InitialHtmlRoundTrip | src/app/admin/components/RichTextEditor.tsx:109-116 | stored HTML keyed through the initial-content conversion gives back the same HTML |
| RichTextEditor.NormalizeLink | src/app/admin/components/RichTextEditor.tsx:118-123 | a blank link gives ""; a link with a scheme is only trimmed; any other gets `https://` in front; a non-empty result always has a scheme |
| RichTextEditor.NormalizeLinkIdempotent | src/app/admin/components/RichTextEditor.tsx:118-123 | normalising a normalised link changes nothing |
| RichTextEditor.SanitizeMathFormula | src/app/admin/components/RichTextEditor.tsx:125-136 | the formula is trimmed; one pair of `$$` (longer than four) or else of `$` (longer than two) around it is removed and the rest trimmed; it never grows |
| RichTextEditor.BlockDelimitersStripped | src/app/admin/components/RichTextEditor.tsx:129-130 | a trimmed formula wrapped in `$$` comes back unwrapped |
| RichTextEditor.InlineDelimitersStripped | src/app/admin/components/RichTextEditor.tsx:131-132 | a trimmed formula not starting with `$`, wrapped in `$`, comes back unwrapped |
| RichTextEditor.DefaultDownloadPath | src/app/admin/components/RichTextEditor.tsx:139 | the fallback path ends in `/download` |
| RichTextEditor.DownloadPath | src/app/admin/components/RichTextEditor.tsx:142-146 | a path ending in `/content` has that ending replaced by `/download`; any other becomes the media's download path |
| RichTextEditor.ToMediaDownloadUrl | src/app/admin/components/RichTextEditor.tsx:138-151 | a missing, empty or unparsable content URL gives the media's download path; a parsed one keeps everything but its rewritten path |
| RichTextEditor.ContentBecomesDownload | src/app/admin/components/RichTextEditor.tsx:142-143 | `<dir>/content` becomes `<dir>/download` |
| RichTextEditor.HandleSetLink | src/app/admin/components/RichTextEditor.tsx:365-378 | nothing happens without an editor or on cancel; a blank answer removes the link; otherwise the normalised link, always with a scheme, is set |
| RichTextEditor.HandleInsertImageByUrl | src/app/admin/components/RichTextEditor.tsx:380-394 | an image is inserted exactly when the editor is ready and the answer is not blank, with the trimmed URL and empty alt and title |
| RichTextEditor.HandleInsertMath | src/app/admin/components/RichTextEditor.tsx:485-501 | a formula is inserted exactly when the editor is ready and the sanitised answer is non-empty, as a block or inline node |
| RichTextEditor.Or | src/app/admin/components/RichTextEditor.tsx:422-423 | the first value unless it is empty, then the second |
| RichTextEditor.UploadedImage | src/app/admin/components/RichTextEditor.tsx:401-433 | the image uses the uploaded URL, the alt falls back to the title and then the file name, the title to the file name |
| RichTextEditor.UploadedFileLink | src/app/admin/components/RichTextEditor.tsx:440-483 | the link text falls back from the title to the original file name to the file name, and the link goes to the download URL |
| RichTextEditor.HandleSetFontSize | src/app/admin/components/RichTextEditor.tsx:517-524 | nothing without an editor; "default" removes the size; any other value sets it |
| RichTextEditor.HandleSetFontFamily | src/app/admin/components/RichTextEditor.tsx:526-533 | nothing without an editor; "default" removes the family; any other value sets it |
| Adapters.Wrap32 | src/lib/adapters.ts:10 | the bitwise or with zero: the result is a signed 32-bit integer, and values already in range are kept |
| Adapters.Wrap32Shift | src/lib/adapters.ts:9-10 | adding a multiple of 2^32 does not change the wrapped value |
| Adapters.CodeUnits | src/lib/adapters.ts:8-9 | the UTF-16 code units of the string: each below 65536; a character below U+10000 ends it as its own code, any other as the surrogate pair 0xD800 + (c - 0x10000) / 0x400 and 0xDC00 + (c - 0x10000) % 0x400 |
| Adapters.BmpCodeUnits | src/lib/adapters.ts:9 | a string of characters below U+10000 has exactly one code unit per character, its code |
| Adapters.HashStep | src/lib/adapters.ts:9-10 | one step stays a signed 32-bit integer |
| Adapters.HashOf | src/lib/adapters.ts:7-11 | the folded hash stays a signed 32-bit integer |
| Adapters.HashIsWrappedPolynomial | src/lib/adapters.ts:7-11 | the step-by-step wrapped hash equals the base-31 polynomial of the code units wrapped once at the end |
| Adapters.HashId | src/lib/adapters.ts:12 | the absolute value of the hash: the hash when it is not negative, its negation when it is, so between 0 and 2^31 |
| Adapters.HashStringToNumber | src/lib/adapters.ts:6-13 | the loop computes exactly the absolute wrapped hash |
| Adapters.SmallHashes | src/lib/adapters.ts:6-13 | "" hashes to 0, "a" to 97 and "ab" to 31 * 97 + 98 |
| Adapters.MapPostToArticle | src/lib/adapters.ts:15-27 | the id is the slug's hash, section, title and cover are copied, a missing subtitle is "", the author is "Test", and the date is formatted only when a publication date is present |
| Slugs.SkipSeparators | src/app/admin/components/PostEditor.tsx:78 | the separators opening the string are dropped: the rest starts with a slug character, or nothing is left when there was none |
| Slugs.CollapseSeparators | src/app/admin/components/PostEditor.tsx:78 | the result starts or ends with `-` exactly when the input starts or ends with a character outside `[a-z0-9]` |
| Slugs.LeadingWord | src/app/admin/components/PostEditor.tsx:78 | the longest prefix made of `[a-z0-9]` characters: non-empty when the string starts with one |
| Slugs.Words | src/app/admin/components/PostEditor.tsx:78 | the words of a string are non-empty runs of `[a-z0-9]` characters |
| Slugs.SkipIsSuffix | src/app/admin/components/PostEditor.tsx:78 | skipping separators leaves a suffix of the input and drops only characters outside `[a-z0-9]` |
| Slugs.CollapseIsJoinedWords | src/app/admin/components/PostEditor.tsx:78 | collapsing gives the maximal `[a-z0-9]` runs joined by single dashes, with one dash more at the end exactly when the input ends in a separator |
| Slugs.SlugIsJoinedWords | src/app/admin/components/PostEditor.tsx:78-79 | collapsing and stripping the edge dashes gives exactly the maximal `[a-z0-9]` runs joined by single dashes |
| Slugs.CollapseShape | src/app/admin/components/PostEditor.tsx:76-78 | after lower-casing and collapsing, only `[a-z0-9-]` remain and no two dashes touch |
| Slugs.StripEdgeDashes | src/app/admin/components/PostEditor.tsx:79 | one dash at each end is dropped, which leaves no edge dash once no two dashes touch; a string without edge dashes is kept |
| Slugs.GenerateSlug | src/app/admin/components/PostEditor.tsx:75-79 | the result is a well-formed slug, and it is exactly the maximal `[a-z0-9]` runs of the lower-cased title joined by single dashes |
| Slugs.SlugIsFixed | src/app/admin/components/PostEditor.tsx:75-79 | a well-formed slug is its own slug |
| Slugs.GenerateSlugIdempotent | src/app/admin/components/PostEditor.tsx:75-79 | generating a slug from a slug changes nothing |
| Slugs.SlugOfTrim | src/app/admin/components/PostEditor.tsx:75-79 | surrounding white space does not change the slug |
| CategoryManager.ToSectionKey | src/app/admin/components/CategoryManager.tsx:59-64 | the key is a well-formed slug, the same slug the post editors make from the name |
| CategoryManager.ToSectionKeyIdempotent | src/app/admin/components/CategoryManager.tsx:59-64 | a key made from a key is the same key |
| CategoryManager.PunctuationHasNoKey | src/app/admin/components/CategoryManager.tsx:84-88 | a name made only of punctuation gives an empty key, the case the second guard rejects |
| CategoryManager.DisplayName | src/app/admin/components/CategoryManager.tsx:111 | the name, else the label, else the key |
| CategoryManager.IsActive | src/app/admin/components/CategoryManager.tsx:248 | the active flag, else the enabled flag, else true |
| CategoryManager.NonBlank | src/app/admin/components/CategoryManager.tsx:94 | the trimmed description, or nothing when it is blank |
| CategoryManager.AddRequest | src/app/admin/components/CategoryManager.tsx:78-97 | nothing is sent when the name is blank or yields no key; otherwise the request carries the non-empty slug key, the trimmed name, the description or nothing, public visibility and active |
| CategoryManager.Manager.constructor | src/app/admin/components/CategoryManager.tsx:48-53 | the form starts closed, empty and editing nothing |
| CategoryManager.Manager.HandleAdd | src/app/admin/components/CategoryManager.tsx:78-106 | the request sent is the one the form allows; after a successful create the form is cleared and closed, otherwise it is left as it was |
| CategoryManager.Manager.HandleEdit | src/app/admin/components/CategoryManager.tsx:108-114 | the section becomes the one being edited and the form holds its display name and its description or "" |
| CategoryManager.Manager.HandleSaveEdit | src/app/admin/components/CategoryManager.tsx:116-132 | nothing is sent when the name is blank or no section with a non-empty id is being edited; otherwise the trimmed name and description go to that section, and after success editing ends and the form is cleared |
| CategoryManager.Manager.HandleCancel | src/app/admin/components/CategoryManager.tsx:144-148 | the form is closed, cleared and editing nothing |
| AdminPostEditor.SectionKeys | src/app/admin/components/PostEditor.tsx:37-47 | the loaded section keys, or EDITORIAL, NOTES and DIARY when loading fails |
| AdminPostEditor.OrEmpty | src/app/admin/components/PostEditor.tsx:58-61 | the value, or "" when missing |
| AdminPostEditor.OrAbsent | src/app/admin/components/PostEditor.tsx:57 | the value when present and non-empty, otherwise nothing |
| AdminPostEditor.FormFromPost | src/app/admin/components/PostEditor.tsx:54-63 | title, section and slug are copied; an empty subtitle becomes absent; missing excerpt, content and cover become "" |
| AdminPostEditor.TitleChanged | src/app/admin/components/PostEditor.tsx:81-87 | the title is replaced; a slug already set is kept, an empty one becomes the title's well-formed slug; nothing else changes |
| AdminPostEditor.SlugFixedAfterFirstTitle | src/app/admin/components/PostEditor.tsx:81-87 | once a title has produced a slug, later titles do not change it |
| AdminPostEditor.StatusCalls | src/app/admin/components/PostEditor.tsx:105-110 | at most one call: publish exactly when publishing a post not yet published, unpublish exactly when saving a published post as a draft |
| AdminPostEditor.NeverPublishAndUnpublish | src/app/admin/components/PostEditor.tsx:88-118 | a save makes at most two calls, never both publish and unpublish; a create publishes exactly when asked and never unpublishes |
| AdminPostEditor.Editor.constructor | src/app/admin/components/PostEditor.tsx:28-40 | the form starts empty in the EDITORIAL section with the fallback sections and no post loaded |
| AdminPostEditor.Editor.LoadSections | src/app/admin/components/PostEditor.tsx:43-47 | the sections become the loaded keys or the fallback list, and nothing else changes |
| AdminPostEditor.Editor.LoadPost | src/app/admin/components/PostEditor.tsx:50-63 | the form is filled from the post and its status is remembered |
| AdminPostEditor.Editor.HandleTitleChange | src/app/admin/components/PostEditor.tsx:81-87 | the form becomes the title-changed form |
| AdminPostEditor.Editor.HandleSave | src/app/admin/components/PostEditor.tsx:88-123 | a blank title sends nothing; otherwise the planned calls are made in order up to the first failure, navigation happens only when all succeeded and some call was made, and saving ends false |
| DemoPostEditor.NewPost | src/components/admin/PostEditor.tsx:26-41 | a new post has the given id and date, draft status, the Editorial section and board, is not featured, is shown on the front page, and has empty text fields |
| DemoPostEditor.InitialForm | src/components/admin/PostEditor.tsx:26-41 | the given post, or a new one |
| DemoPostEditor.Saved | src/components/admin/PostEditor.tsx:43-45 | the form with only its status replaced |
| DemoPostEditor.TitleChanged | src/components/admin/PostEditor.tsx:55-61 | the title is replaced; a slug already set is kept, a missing or empty one becomes the title's well-formed slug; nothing else changes |
| DemoPostEditor.SaveLastWins | src/components/admin/PostEditor.tsx:43-45 | saving twice is saving once with the last status |
| DemoPostEditor.Editor.constructor | src/components/admin/PostEditor.tsx:26-41 | the form starts as the given post or a new one |
| DemoPostEditor.Editor.HandleTitleChange | src/components/admin/PostEditor.tsx:55-61 | the form becomes the title-changed form |
| DemoPostEditor.Editor.HandleSave | src/components/admin/PostEditor.tsx:43-45 | the post handed to the caller is the form with the chosen status |
| Navigation.Pages | src/App.tsx:17-29 | the older app's page type has no gallery, gallery-manager or category-manager page |
| Navigation.AdminPages | src/app/page.tsx:112-165 | the pages guarded by login are pages of the shell, and the login page is not one of them |
| Navigation.ViteMapIsNextMapWithoutGallery | src/App.tsx:56-66 | the older app's page map is the Next.js page's map without its gallery, gallery-manager and category-manager entries |
| Navigation.ParsedId | src/app/page.tsx:54-56 | an `edit-post-` target always sets an id: the number `parseInt` reads from the text after the prefix, or NaN when it reads none |
| Navigation.ParsedIdOfSuffix | src/app/page.tsx:54-56 | the id of `edit-post-` followed by any text depends only on that text |
| Navigation.ArticleShown | src/app/page.tsx:182 | the article page shows an article only with a numeric id, never with 0, and always with any other number |
| Navigation.ViteHasNoGallery | src/App.tsx:56-68 | the older app's page map has no gallery, gallery-manager or category-manager entry |
| Navigation.Rendered | src/app/page.tsx:108-165 | the login page shows the login form; a guarded page shows its screen when authenticated and the login form otherwise; every other page is shown publicly; nothing admin shows without login |
| Navigation.Navigator.constructor | src/app/page.tsx:38-40 | the shell starts on home, with no article and not authenticated |
| Navigation.Navigator.HandleNavigate | src/app/page.tsx:42-78 | "admin" goes to the dashboard when authenticated and to login otherwise; `edit-post-<n>` opens the editor with the parsed id; a known name goes to its page and any other name goes home |
| Navigation.Navigator.HandleReadArticle | src/app/page.tsx:80-83 | the article page opens with that id, and shows the article exactly when the id is not 0 |
| Navigation.Navigator.HandleBackToHome | src/app/page.tsx:85-88 | home, with the article cleared |
| Navigation.Navigator.HandleLogin | src/app/page.tsx:90-93 | authenticated, on the dashboard, which is then rendered |
| Navigation.Navigator.HandleLogout | src/app/page.tsx:95-98 | not authenticated, on home |
| Navigation.Navigator.HandleSavePost | src/app/page.tsx:100-105 | back to the posts list |
| Navigation.NoAdminWithoutLogin | src/app/page.tsx:112-165 | without login no admin screen is ever rendered |
| Navigation.UnknownTargetsGoHome | src/app/page.tsx:61-77 | the names "login", "article" and "edit-post" are not in the page map, so navigating to them goes home |
| Navigation.PageMapTargets | src/app/page.tsx:61-77 | every page-map entry names a page of the shell, never the login, editor or article page |
| MockData.IdsAreIndices | src/lib/mockData.ts:3-195 | sixteen articles with ids 1 to 16 in order |
| MockData.AllPublished | src/lib/mockData.ts:3-195 | every mock article is published |
| MockData.OnlyFirstFeatured | src/lib/mockData.ts:3-195 | only the first article is featured, and it is shown on the front page |
| MockData.GetFeaturedArticle | src/lib/mockData.ts:197-199 | an article is found exactly when some article is featured and on the front page, and it is the first such |
| MockData.FeaturedIsFirst | src/lib/mockData.ts:197-199 | the featured article of the mock list is its first |
| MockData.FrontPageQuery | src/lib/mockData.ts:201-223 | at most `limit` articles, all kept by the filter, in list order: the first `limit` of the filtered list |
| MockData.GetLatestArticles | src/lib/mockData.ts:201-205 | at most the limit (4 by default) of the published front-page articles that are not featured, in order |
| MockData.GetEditorialPicks | src/lib/mockData.ts:207-211 | at most the limit (3 by default) of the Editorial front-page articles that are not featured, in order |
| MockData.GetNotesArticles | src/lib/mockData.ts:213-217 | at most the limit (3 by default) of the Notes front-page articles, in order |
| MockData.GetDiaryEntries | src/lib/mockData.ts:219-223 | at most the limit (5 by default) of the Diary front-page articles, in order |
| MockData.GetArticlesBySection | src/lib/mockData.ts:225-227 | exactly the published articles of the section, in order |
| MockData.GetArticleById | src/lib/mockData.ts:229-231 | an article with that id from the list, or nothing when no article has it |
| MockData.ArticleById | src/lib/mockData.ts:229-231 | ids 1 to 16 find the article at that place; every other id finds nothing |
| MockData.GetAllPublishedArticles | src/lib/mockData.ts:233-235 | exactly the published articles, in order |
| MockData.GetAllDrafts | src/lib/mockData.ts:237-239 | exactly the draft articles, in order |
| MockData.PublishedAndDraftsPartition | src/lib/mockData.ts:233-239 | an article that is published or draft is in exactly one of the two lists |
| MockData.NoDrafts | src/lib/mockData.ts:233-239 | with every article published there are no drafts and the published list is the whole list |
| ArchivePage.FilteredArticles | src/components/ArchivePage.tsx:12-21 | exactly the published articles of the chosen section whose date contains the chosen year, in order |
| ArchivePage.AllAllShowsEverything | src/components/ArchivePage.tsx:9-21 | with both filters on "All" every published article is shown |
| ArchivePage.GroupKey | src/components/ArchivePage.tsx:26 | the heading as written is a prefix of the date |
| ArchivePage.DayToken | src/components/ArchivePage.tsx:110 | the day column is one space-free token of the date |
| ArchivePage.DateTokens | src/components/ArchivePage.tsx:26 | a date "month day year" splits into those three tokens |
| ArchivePage.KeysOfDate | src/components/ArchivePage.tsx:26-110 | on such a date the heading as written is month and day, the intended heading is month and year, and the day column is the day |
| ArchivePage.GroupKeySplitsMonth | src/components/ArchivePage.tsx:26 | as written, two different days of one month get different headings |
| ArchivePage.DecemberHeading | src/components/ArchivePage.tsx:26 | "December 14, 2025" is headed "December 14," |
| ArchivePage.SameMonthSameGroup | src/components/ArchivePage.tsx:26 | with the month-and-year key every day of a month shares one heading |
| ArchivePage.Keys | src/components/ArchivePage.tsx:24-31 | the headings have no repeats |
| ArchivePage.KeysCover | src/components/ArchivePage.tsx:24-31 | a heading appears exactly when some article has that key |
| ArchivePage.Group | src/components/ArchivePage.tsx:24-31 | a group holds exactly the articles with its key |
| ArchivePage.GroupsGrow | src/components/ArchivePage.tsx:24-31 | pushing one article into the array of its key, created empty on first sight, turns the headings and arrays of a list into those of the list one article longer |
| ArchivePage.GroupByKey | src/components/ArchivePage.tsx:24-31 | the loop yields the headings in order of first appearance and, under each, exactly the articles with that key |
| ArchivePage.InExactlyOneGroup | src/components/ArchivePage.tsx:24-31 | each article is under its own heading and under no other |
| ArchivePage.GroupKeepsOrder | src/components/ArchivePage.tsx:24-31 | within a group the articles keep their filtered order |
| ArchivePage.KeysGrowAtTheEnd | src/components/ArchivePage.tsx:24-31 | the headings of a prefix of the articles are a prefix of the headings |
| ArchivePage.GroupSizesSum | src/components/ArchivePage.tsx:24-92 | the group sizes add up to the article count shown above them |
| CategoryData.ListsAreConsistent | src/lib/categoryData.ts:12-27 | six gallery categories with ids 1 to 6 and three blog categories with ids 101 to 103, each of its own type |
| CategoryData.GetCategoriesByType | src/lib/categoryData.ts:29-34 | "gallery" gives the six gallery categories and any other type the three blog categories |
| CategoryData.GetCategoryById | src/lib/categoryData.ts:37-39 | a category with that id from either list, or nothing when none has it |
| CategoryData.CategoryIdsDistinct | src/lib/categoryData.ts:37-39 | ids 1 to 6 and 101 to 103 find their category; every other id finds nothing |
| CategoryData.GetCategoryBySlug | src/lib/categoryData.ts:42-45 | a category of the type with that slug, or nothing when none has it |
| CategoryData.Names | src/lib/categoryData.ts:49-54 | the names of the categories, in order |
| CategoryData.GetGalleryCategoryNames | src/lib/categoryData.ts:48-50 | "All" followed by the gallery category names in order |
| CategoryData.GetBlogCategoryNames | src/lib/categoryData.ts:53-55 | the blog category names in order |
| CategoryData.BlogNamesAreSections | src/lib/categoryData.ts:53-55 | the blog names are Editorial, Notes and Diary |
| CategoriesRoute.Get | src/app/api/categories/route.ts:8-24 | "gallery" and "blog" give that list; any other non-empty type gives a 400 error; no type gives both lists, gallery first |
| CategoriesRoute.TypedResponseIsPure | src/app/api/categories/route.ts:12-14 | a typed request lists only categories of that type |
| PageConfig.Lookup | src/lib/pageConfig.rs:1-11 | exactly home, category and abcd have entries, with their kinds, titles and sections |
| PageConfig.SectionOnlyOnCategory | src/lib/pageConfig.rs:1-11 | only the category page names a section, and only the home page has no title |
| GalleryData.CategoriesKnown | src/lib/galleryData.ts:12-205 | twenty-four images, each of a known category |
| GalleryData.GalleryImages | src/lib/galleryData.ts:12-205 | the image at place k has id k + 1, its address, and the caption, date, location and category of that entry |
| GalleryData.GetAllGalleryImages | src/lib/galleryData.ts:207-209 | twenty-four images with ids 1 to 24 in order, each of a known category |
| GalleryData.GetGalleryImageById | src/lib/galleryData.ts:211-213 | an image with that id from the list, or nothing when none has it |
| GalleryData.ImageById | src/lib/galleryData.ts:211-213 | ids 1 to 24 find the image at that place; every other id finds nothing |
| GalleryData.GetGalleryImagesByCategory | src/lib/galleryData.ts:215-217 | exactly the images of the category, in order |
| DemoGalleryManager.FilteredImages | src/components/admin/GalleryManager.tsx:27-29 | every image for "All", otherwise exactly the images of the category, in order |
| DemoGalleryManager.TotalPages | src/components/admin/GalleryManager.tsx:32 | the fewest pages of twelve that hold all the images, zero only for none |
| DemoGalleryManager.CurrentImages | src/components/admin/GalleryManager.tsx:33-35 | at most twelve images, the ones from place (page - 1) * 12 on, and at least one on every page up to the last |
| DemoGalleryManager.EveryImageOnItsPage | src/components/admin/GalleryManager.tsx:32-35 | image i is shown on page i / 12 + 1, at place i % 12, and that page exists |
| DemoGalleryManager.BlankDraft | src/components/admin/GalleryManager.tsx:18-24 | an empty form in the Miscellaneous category dated today |
| DemoGalleryManager.GalleryManager.constructor | src/components/admin/GalleryManager.tsx:14-24 | the given images, form closed, all categories, page 1 and a blank form |
| DemoGalleryManager.GalleryManager.HandleCategoryChange | src/components/admin/GalleryManager.tsx:38-41 | the category is selected and the page goes back to 1 |
| DemoGalleryManager.GalleryManager.EditDraft | src/components/admin/GalleryManager.tsx:137-173 | the one edited field of the form changes and nothing else |
| DemoGalleryManager.GalleryManager.SetAdding | src/components/admin/GalleryManager.tsx:109-123 | the form opens or closes and nothing else changes |
| DemoGalleryManager.GalleryManager.HandleAddImage | src/components/admin/GalleryManager.tsx:43-69 | without an address nothing changes; otherwise one image built from the form is put first, the form closes and is cleared |
| DemoGalleryManager.GalleryManager.HandleDeleteImage | src/components/admin/GalleryManager.tsx:71-76 | once confirmed, exactly the images with other ids remain, in order; otherwise nothing changes |
| DemoGalleryManager.GalleryManager.Pages | src/components/admin/GalleryManager.tsx:32 | zero pages exactly when the filter shows nothing |
| DemoGalleryManager.GalleryManager.PreviousPage | src/components/admin/GalleryManager.tsx:269-274 | the page goes back one only when the controls show and it is not the first; a page in range stays in range |
| DemoGalleryManager.GalleryManager.NextPage | src/components/admin/GalleryManager.tsx:269-284 | the page goes on one only when the controls show and it is not the last; a page in range stays in range |
| DemoGalleryManager.PastTheLastPage | src/components/admin/GalleryManager.tsx:71-283 | deleting can leave the page past the last one, where nothing is shown and the next button stays enabled |
| AdminGalleryManager.TrimAll | src/app/admin/components/GalleryManager.tsx:71-72 | one trimmed name per category, a missing one as "" |
| AdminGalleryManager.KeptNamesAreClean | src/app/admin/components/GalleryManager.tsx:71-73 | the names kept after dropping empty ones are non-empty and trimmed |
| AdminGalleryManager.NormalizeCategories | src/app/admin/components/GalleryManager.tsx:66-80 | the category list has no repeats, only non-empty trimmed names, holds exactly the non-empty trimmed names of the answer (none for a missing answer), and lists them in the order they first occur in the answer |
| Lists.FirstIndex | src/app/admin/components/GalleryManager.tsx:69-75 | the index of an element it holds, with that element at that index |
| Lists.FirstIndexIsFirst | src/app/admin/components/GalleryManager.tsx:69-75 | no earlier element is the one looked for |
| Lists.FilterKeepsFirstOrder | src/app/admin/components/GalleryManager.tsx:69-75 | two kept elements that first occur in one order after filtering first occur in that order before it |
| Lists.DedupFirstOrder | src/app/admin/components/GalleryManager.tsx:69-75 | `Array.from(new Set(s))` lists each element in the order of its first occurrence in `s` |
| AdminGalleryManager.PrevPage | src/app/admin/components/GalleryManager.tsx:547 | one page back, never below page 0 |
| AdminGalleryManager.NextPage | src/app/admin/components/GalleryManager.tsx:557 | one page on, never past the last page |
| AdminGalleryManager.PagingStaysInRange | src/app/admin/components/GalleryManager.tsx:544-558 | from a page in range both buttons keep the page in range, and an enabled button moves exactly one page |
| AdminGalleryManager.DeleteErrorAlert | src/app/admin/components/GalleryManager.tsx:203-211 | the permission message exactly when the error mentions "API error 403", the generic failure otherwise |
| AdminGalleryManager.ConfirmPrompt | src/app/admin/components/GalleryManager.tsx:185 | the prompt names the caption, or "ảnh này" when it is missing or empty |
| AdminGalleryManager.UploadFor | src/app/admin/components/GalleryManager.tsx:120-153 | nothing is sent in file mode without a file or in URL mode without a URL; a file upload carries the title as title and alternative text, a URL upload the URL, with caption, location and category |
| AdminGalleryManager.EditCopy | src/app/admin/components/GalleryManager.tsx:215-224 | the edit form holds each field of the image, a missing one as "" |
| AdminGalleryManager.GalleryManager.constructor | src/app/admin/components/GalleryManager.tsx:45-64 | no categories or images, form closed in file mode, page 0 of 1, loading, blank forms |
| AdminGalleryManager.GalleryManager.LoadCategories | src/app/admin/components/GalleryManager.tsx:66-80 | an answer replaces the categories by its normalised list; a failed call keeps them; nothing else changes |
| AdminGalleryManager.GalleryManager.LoadImages | src/app/admin/components/GalleryManager.tsx:82-104 | an answer sets the images and the totals; a failure empties the images and keeps the totals; loading ends |
| AdminGalleryManager.GalleryManager.ApplyPage | src/app/admin/components/GalleryManager.tsx:161-163 | images and totals become the reloaded page's |
| AdminGalleryManager.GalleryManager.HandleAddImage | src/app/admin/components/GalleryManager.tsx:120-182 | the upload sent is the one the form allows; after a successful upload and reload the page is replaced, the form is reset and closed and the categories reloaded; otherwise the state is unchanged |
| AdminGalleryManager.GalleryManager.ResetAddForm | src/app/admin/components/GalleryManager.tsx:165-174 | the form closes in file mode, without a file, blank |
| AdminGalleryManager.GalleryManager.HandleDeleteImage | src/app/admin/components/GalleryManager.tsx:184-213 | unconfirmed, nothing happens; after a successful delete and reload the page is replaced with the success alert; on a failure the page is kept and the alert says whether permission was missing |
| AdminGalleryManager.GalleryManager.HandleEditImage | src/app/admin/components/GalleryManager.tsx:215-224 | the image becomes the one being edited, with its fields copied into the edit form |
| AdminGalleryManager.GalleryManager.CancelEdit | src/app/admin/components/GalleryManager.tsx:519-522 | editing ends and the edit form is emptied |
| AdminGalleryManager.GalleryManager.HandleSaveEdit | src/app/admin/components/GalleryManager.tsx:226-251 | a request is sent exactly when an image with a non-empty id is being edited; after success the page is replaced, editing ends and the categories are reloaded; otherwise the state is unchanged |
| AdminGalleryManager.GalleryManager.CloseAddForm | src/app/admin/components/GalleryManager.tsx:294-298 | the form closes, back in file mode and without a file, keeping its fields |
| AdminGalleryManager.GalleryManager.OpenAddForm | src/app/admin/components/GalleryManager.tsx:281 | the form opens as it was left |
| AdminGalleryManager.GalleryManager.SelectMode | src/app/admin/components/GalleryManager.tsx:309-320 | the mode changes and the chosen file is kept |
| AdminGalleryManager.GalleryManager.SelectFile | src/app/admin/components/GalleryManager.tsx:338 | the chosen file, or none, is remembered |
| AdminGalleryManager.GalleryManager.EditUpload | src/app/admin/components/GalleryManager.tsx:349-386 | one field of the add form is set and nothing else changes |
| AdminGalleryManager.GalleryManager.EditChange | src/app/admin/components/GalleryManager.tsx:487-506 | one field of the edit form is set and nothing else changes |
| AdminGalleryManager.GalleryManager.PreviousPage | src/app/admin/components/GalleryManager.tsx:544-548 | the page moves back only when the controls show and the button is enabled; a page in range stays in range |
| AdminGalleryManager.GalleryManager.NextPageClick | src/app/admin/components/GalleryManager.tsx:544-558 | the page moves on only when the controls show and the button is enabled; a page in range stays in range |
| AdminPostsList.SectionMapStep | src/app/admin/components/PostsList.tsx:52-57 | one more section with a key and an id writes its key and upper-cased key to its id and leaves every other entry as it was |
| AdminPostsList.SectionMapDomain | src/app/admin/components/PostsList.tsx:52-57 | a key is in the map exactly when some section with a key and an id wrote it |
| AdminPostsList.SectionMapLastWriter | src/app/admin/components/PostsList.tsx:52-57 | a key maps to the id of the last section that wrote it |
| AdminPostsList.SectionKeysMapped | src/app/admin/components/PostsList.tsx:52-57 | the buttons are exactly the keys of the sections that have a key and an id, each non-empty and in the map both as written and upper-cased |
| AdminPostsList.MappedKeyHasSection | src/app/admin/components/PostsList.tsx:52-60 | a non-empty map comes with at least one section button of its own |
| AdminPostsList.BuildSectionMap | src/app/admin/components/PostsList.tsx:48-59 | the loop builds exactly the section map and the list of section keys |
| AdminPostsList.SectionButtons | src/app/admin/components/PostsList.tsx:60 | the loaded keys, or EDITORIAL, NOTES and DIARY when there are none |
| AdminPostsList.QueryFor | src/app/admin/components/PostsList.tsx:74-84 | always page 0 of 100; the section id only for a chosen, non-empty, known key; the status only when one is chosen |
| AdminPostsList.InYear | src/app/admin/components/PostsList.tsx:89-94 | every post without a year filter, otherwise exactly the posts published in that year, in order |
| AdminPostsList.Years | src/app/admin/components/PostsList.tsx:36-43 | exactly the publication years of the posts |
| AdminPostsList.NewestFirst | src/app/admin/components/PostsList.tsx:44 | distinct years sorted by descending number are strictly decreasing |
| AdminPostsList.AvailableYears | src/app/admin/components/PostsList.tsx:36-44 | exactly the publication years of the posts, each once, newest first |
| AdminPostsList.PostsList.constructor | src/app/admin/components/PostsList.tsx:26-34 | all filters on "All", no posts, loading, count 0, the fallback sections and an empty map |
| AdminPostsList.PostsList.LoadSections | src/app/admin/components/PostsList.tsx:46-67 | an answer gives the loop's map and buttons; a failure an empty map and the fallback buttons; nothing else changes |
| AdminPostsList.PostsList.LoadPosts | src/app/admin/components/PostsList.tsx:69-107 | the query is the one the filters call for; an answer keeps all posts, shows those of the chosen year and counts them; a failure empties the shown list; loading ends |
| AdminPostsList.PostsList.OfferedYears | src/app/admin/components/PostsList.tsx:36-226 | the year buttons are exactly the years of the loaded posts, newest first |
| AdminPostsList.PostsList.HandleDelete | src/app/admin/components/PostsList.tsx:109-122 | unconfirmed, nothing happens; a deletion removes exactly the posts with that id, keeping order, and lowers the count by one but not below zero; a failure alerts and changes nothing |
| AdminPostsList.PostsList.SelectFilter | src/app/admin/components/PostsList.tsx:167-216 | a filter button sets its one filter and nothing else |
| DemoPostsList.FilteredPosts | src/components/admin/PostsList.tsx:18-22 | exactly the articles of the chosen section and status ("All" keeps any), in order |
| DemoPostsList.AllAllKeepsEverything | src/components/admin/PostsList.tsx:18-22 | with both filters on "All" every article is listed, in order |
| DemoPostsList.SortedPosts | src/components/admin/PostsList.tsx:25-27 | a reordering of the filtered articles, newest first |
| DemoPostsList.AlreadyNewestFirst | src/components/admin/PostsList.tsx:25-27 | a filtered list already newest first is shown as it is |
| Ordering.WithKey | src/components/admin/PostsList.tsx:25-27 | the elements with one key all have that key |
| Ordering.InsertByWithKey | src/components/admin/PostsList.tsx:25-27 | inserting an element places it after every element with the same key and keeps their order |
| Ordering.SortByStable | src/components/admin/PostsList.tsx:25-27 | the sort is stable: for every key the elements with that key keep their order |
| DemoPostsList.SummaryOf | src/components/admin/PostsList.tsx:116-179 | the count of listed posts, "post" for exactly one and "posts" otherwise, and the empty message exactly when nothing is listed |

## Findings

| source | as written | input that shows it | evidently intended | confidence | as-written member | corrected member |
|---|---|---|---|---|---|---|
| src/components/ArchivePage.tsx:26 | the archive groups articles under the first two space-separated tokens of the date, month and day | an article dated "December 14, 2025" is headed "December 14," and one dated "December 3, 2025" gets a heading of its own | one heading per month and year, "December 2025", as the comment beside the line says | medium, not executed | ArchivePage.GroupKey | ArchivePage.MonthKey |

`ArchivePage.GroupKeySplitsMonth` and `ArchivePage.DecemberHeading` exhibit the as-written key. `ArchivePage.SameMonthSameGroup` proves that `MonthKey` gives every day of a month one heading. The grouping method `ArchivePage.GroupByKey` and its lemmas take the key function as a parameter, so they hold for either key.

## Left out

- **Rendering.** The DOM, React rendering and the third-party renderers are not modelled. This covers the TipTap editor and its node views, KaTeX, markdown-it, the Turndown conversion itself, `next/image`, and the browser branch of `extractPlainTextFromHtml`. Only the strings the two Turndown math rules emit are modelled.
- **Back-end calls.** Every `fetch` to the back end and every admin API client call is a parameter holding its outcome: success with a value, or failure with a message. In `proxyToBE` the outcome is always a reply, so a `fetch` that throws, which the source lets escape as a rejected promise, is not represented. The client modules themselves (`adminApiClient.ts`, `api/client.ts`, `apiClient.ts`) and the one-line proxy routes are not part of this model.
- **Auth routes.** The login, refresh, token and logout routes are not part of this model. Their payload parsing is the same as `parseAuthPayload`, which is modelled as `ApiProxy.ParseAuthPayload`.
- **Timing.** Timers, debouncing and async cancellation are left out because they are about timing, not state: the picker's 250 ms search debounce, toast timeouts, the `cancelled` flags of effects, and the loading overlay's display.
- **Dates.** `Date` parsing and formatting are parameters. This covers `getFullYear`, `getTime`, `toLocaleDateString` and today's date.
- **Year filter.** The admin posts list compares `getFullYear().toString()` with the selected year string. The model compares the year as an integer taken from that parameter.
- **Number coercion.** `Number(...)` and `NaN` are not modelled. `AuthCookies.CookieMaxAge` takes a real number or nothing; "nothing" stands for `undefined` and for `NaN`, and both fall back to the default as the source does.
- **Case mapping.** Lower-casing and upper-casing are ASCII only. Non-ASCII letters keep their case in the model.
- **Parsing and serialising.** `JSON.parse`, `JSON.stringify`, `URL`, `URLSearchParams` and `parseInt` are parameters or are given simple specifications.
- **Randomness.** `crypto.randomUUID`, and the base-36 digits of `Math.random`, are parameters of `AuthCookies.GenerateCsrfToken`.
- **Listener side effects.** What a network-activity listener does with a count is outside the model. The model records which listeners were told which count.
- **Logging and messages.** `console` output is not modelled, and neither are alert and toast texts beyond the constants the handlers choose between.
- **Route matcher.** Next.js applies the `/admin/:path*` matcher of `src/proxy.ts` and `src/middleware.ts`. The model covers `/admin` and every path below `/admin/`; it does not model the matcher's own normalisation of the request path.
- **Front-page effects.**
  - The first load's `loading` flag, its `alert` and its `cancelled` check are left out; `Manager.Bootstrap` models what the load sets.
  - The picker's search load is a fetch effect, so only its reset and open/close state are modelled.
  - The effect that loads sections by key is left out as well.
- **Mock text fields.** The mock articles' title, author, excerpt, body and cover image, and the gallery images' URLs, are not read by any query. The articles drop them; the gallery takes its URLs as a parameter.
- **Object key order and prototype keys.** Plain-object maps are modelled as Dafny maps. So the page map and the section-id map never find inherited keys such as `"toString"`, which the source's `pageMap[...]` lookup would. Where key order matters, the order is kept as a separate list.
- **Upstream headers.** `ApiProxy.BuildUpstreamHeaders` is a loop over the list of forwarded header names, where the source spells out each header. The headers forwarded and their values are the same.
- **Server-side `trackedFetch`.** The branch of `trackedFetch` taken without a `window`, which calls `fetch` without counting, is not modelled.
- **Router and loading state.** The router's redirects after login, logout or save are not modelled. The category manager's `loading` flag is not modelled either; the admin gallery and the admin posts list model theirs.
- **CategoryManager loading.** `loadSections` and `handleToggle` in CategoryManager only call the back end and reload, so they are not modelled. `handleSaveEdit`, the add guards and the form handlers are modelled.
- **Admin gallery upload state.** The `uploadingImage` and `uploadingDocument` flags of the rich-text editor, and the object URL of the admin gallery's file preview, are not modelled.
- **Pure UI components.** The Dashboards, Login, Header, Sidebar, FrontPage, DiaryPage, DiaryList, the layout and the providers render and hold no logic of their own. The type-only files and `src/app/api/gallery/route.ts`, which is commented out, are not modelled either.
- **Sorting.** `Array.prototype.sort` is modelled as an insertion sort on an integer key. It is proved stable, which the built-in sort guarantees. The source's comparator returns the difference of two instants, which orders the same way.
