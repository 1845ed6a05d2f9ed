/** The front-page composition editor: one optional lead story and an
    ordered list of supporting stories with 1-based positions. Every change
    is shown at once (an optimistic update), sent to the back end with the
    composition's version, and rolled back when the call fails. The back
    end's answers and `JSON.parse` are parameters. */
module FrontPageManager {
  import opened Text
  import opened Ordering
  import opened Lists

  const SupportingMaxItems: int := 6
  const PickerPageSize: int := 12

  // ---------------------------------------------------------------------
  // Section keys and names

  /** `normalizeKey`: trimmed and lower-cased; a missing value is "". */
  function NormalizeKey(value: Option<string>): (r: string)
    ensures IsTrimmed(r)
    ensures r == "" <==> AllSpace(value.GetOr(""))
    ensures forall k :: 0 <= k < |r| ==> !IsAsciiUpper(r[k])
    ensures EqualsIgnoringCase(r, Trim(value.GetOr("")))
  {
    var t := Trim(value.GetOr(""));
    assert forall k :: 0 <= k < |t| ==> (IsSpace(LowerChar(t[k])) <==> IsSpace(t[k]));
    assert forall k :: 0 <= k < |t| ==> LowerChar(Lower(t)[k]) == LowerChar(t[k]);
    Lower(t)
  }

  lemma LowerLower(s: string)
    ensures Lower(Lower(s)) == Lower(s)
  {
  }

  /** Normalising a normalised key changes nothing. */
  lemma NormalizeKeyIdempotent(value: Option<string>)
    ensures NormalizeKey(Some(NormalizeKey(value))) == NormalizeKey(value)
  {
    var n := NormalizeKey(value);
    TrimOfTrimmed(n);
    LowerLower(Trim(value.GetOr("")));
  }

  /** `sectionNameFromKey`: the three known sections by their normalised key;
      any other key upper-cased as given, and "Unknown" for "". */
  function SectionNameFromKey(key: string): (r: string)
    ensures NormalizeKey(Some(key)) == "editorial" ==> r == "Editorial"
    ensures NormalizeKey(Some(key)) == "diary" ==> r == "Diary"
    ensures NormalizeKey(Some(key)) == "notes" ==> r == "Notes"
    ensures NormalizeKey(Some(key)) !in {"editorial", "diary", "notes"} ==>
      r == (if key == "" then "Unknown" else Upper(key))
  {
    var normalized := NormalizeKey(Some(key));
    if normalized == "editorial" then "Editorial"
    else if normalized == "diary" then "Diary"
    else if normalized == "notes" then "Notes"
    else if key != "" then Upper(key)
    else "Unknown"
  }

  /** The `section` field of a post as the API may send it: a string, an
      object with an optional key and name, or anything else. */
  datatype SectionValue =
    | SectionText(text: string)
    | SectionRecord(key: Option<string>, name: Option<string>)
    | NoSection

  /** `sectionKeyFromPost`: the normalised string, or the normalised key of
      the object (its name when the key is missing or empty), or "". */
  function SectionKeyFromPost(section: SectionValue): (r: string)
    ensures IsTrimmed(r)
    ensures section.SectionText? ==> r == NormalizeKey(Some(section.text))
    ensures section.SectionRecord? && section.key.Some? && section.key.value != "" ==>
      r == NormalizeKey(section.key)
    ensures section.SectionRecord? && (section.key.None? || section.key.value == "") ==>
      r == NormalizeKey(section.name)
    ensures section.NoSection? ==> r == ""
  {
    match section
    case SectionText(text) => NormalizeKey(Some(text))
    case SectionRecord(key, name) =>
      NormalizeKey(if key.Some? && key.value != "" then key else name)
    case NoSection => ""
  }

  datatype AdminPost = AdminPost(id: string, title: string, slug: string, section: SectionValue)

  /** The preview of a post stored in the composition. */
  datatype PostPreview = PostPreview(id: string, title: string, slug: string, sectionKey: string, sectionName: string)

  /** `toPreviewFromPost`. */
  function ToPreview(post: AdminPost): (r: PostPreview)
    ensures r.id == post.id && r.title == post.title && r.slug == post.slug
    ensures r.sectionKey == SectionKeyFromPost(post.section)
    ensures r.sectionName == SectionNameFromKey(r.sectionKey)
  {
    var key := SectionKeyFromPost(post.section);
    PostPreview(post.id, post.title, post.slug, key, SectionNameFromKey(key))
  }

  // ---------------------------------------------------------------------
  // Error messages

  /** A thrown value: an `Error` with its message, or anything else. */
  datatype ErrorValue = NonError | Error(message: string)

  /** `part` occurs in `s` at index `i`. */
  predicate OccursAt(s: string, part: string, i: int) {
    0 <= i && i + |part| <= |s| && s[i..i + |part|] == part
  }

  /** `s.indexOf(part, from)`: the first occurrence at or after `from`, or -1. */
  function IndexOfFrom(s: string, part: string, from: nat): (r: int)
    ensures r == -1 || (from <= r && OccursAt(s, part, r))
    ensures forall k :: from <= k && (r == -1 || k < r) ==> !OccursAt(s, part, k)
    decreases |s| - from
  {
    if from + |part| > |s| then -1
    else if s[from..from + |part|] == part then from
    else IndexOfFrom(s, part, from + 1)
  }

  const UnknownError: string := "Unknown error"

  /** The message of a thrown `Error`, or "Unknown error" when it is empty. */
  function RawMessage(message: string): (r: string)
    ensures r != ""
    ensures message != "" ==> r == message
  {
    if message == "" then UnknownError else message
  }

  /** `normalizeErrorMessage`: "Unknown error" for anything but an `Error`;
      otherwise its raw message, unless that holds ": {" and the JSON after
      the colon parses with a non-empty `message`, which then replaces it.
      `parseMessage` stands for `JSON.parse(...)?.message`. */
  function NormalizeErrorMessage(error: ErrorValue, parseMessage: string -> Option<string>): (r: string)
    ensures r != ""
    ensures error.NonError? ==> r == UnknownError
    ensures error.Error? ==>
      var raw := RawMessage(error.message);
      var idx := IndexOfFrom(raw, ": {", 0);
      && (idx == -1 ==> r == raw)
      && (idx >= 0 && parseMessage(raw[idx + 2..]).Some? && parseMessage(raw[idx + 2..]).value != "" ==>
            r == parseMessage(raw[idx + 2..]).value)
      && (idx >= 0 && (parseMessage(raw[idx + 2..]).None? || parseMessage(raw[idx + 2..]).value == "") ==>
            r == raw)
  {
    match error
    case NonError => UnknownError
    case Error(message) =>
      var raw := RawMessage(message);
      var idx := IndexOfFrom(raw, ": {", 0);
      if idx > -1 then
        var parsed := parseMessage(raw[idx + 2..]);
        if parsed.Some? && parsed.value != "" then parsed.value else raw
      else raw
  }

  /** The JSON after the marker is what the back end's error text embeds:
      `Request failed: {"message":"..."}` yields the inner message. */
  lemma EmbeddedMessage(prefix: string, json: string, inner: string, parseMessage: string -> Option<string>)
    requires prefix != "" && forall k :: 0 <= k < |prefix| ==> prefix[k] != ':'
    requires parseMessage("{" + json) == Some(inner) && inner != ""
    ensures NormalizeErrorMessage(Error(prefix + ": {" + json), parseMessage) == inner
  {
    var raw := prefix + ": {" + json;
    forall k | 0 <= k < |prefix| ensures !OccursAt(raw, ": {", k) {
      assert raw[k] == prefix[k];
      if k + 3 <= |raw| {
        assert raw[k..k + 3][0] == raw[k];
      }
    }
    assert OccursAt(raw, ": {", |prefix|);
    assert IndexOfFrom(raw, ": {", 0) == |prefix|;
    assert raw[|prefix| + 2..] == "{" + json;
  }

  /** `isConflictError`: the message mentions 409, a conflict or a stale
      version, in any letter case. */
  function IsConflictError(error: ErrorValue, parseMessage: string -> Option<string>): (r: bool)
    ensures r <==>
      var message := NormalizeErrorMessage(error, parseMessage);
      || ContainsIgnoringCase(message, "409")
      || ContainsIgnoringCase(message, "conflict")
      || ContainsIgnoringCase(message, "stale")
  {
    var message := NormalizeErrorMessage(error, parseMessage);
    LowerContains(message, "409");
    LowerContains(message, "conflict");
    LowerContains(message, "stale");
    var msg := Lower(message);
    Contains(msg, "409") || Contains(msg, "conflict") || Contains(msg, "stale")
  }

  /** A message mentioning "CONFLICT" in any case, after anything, is a
      conflict when it carries no embedded JSON. */
  lemma ConflictInAnyCase(prefix: string, parseMessage: string -> Option<string>)
    requires IndexOfFrom(prefix + "CONFLICT", ": {", 0) == -1
    ensures IsConflictError(Error(prefix + "CONFLICT"), parseMessage)
  {
    var raw := prefix + "CONFLICT";
    assert NormalizeErrorMessage(Error(raw), parseMessage) == raw;
    var msg := Lower(raw);
    assert msg[|prefix|..|prefix| + 8] == "conflict";
    ContainsAt(msg, "conflict", |prefix|);
  }

  // ---------------------------------------------------------------------
  // The composition

  datatype Item = Item(
    id: int,
    postId: string,
    position: int,
    active: bool,
    pinned: bool,
    startAt: Option<string>,
    endAt: Option<string>,
    note: Option<string>,
    post: PostPreview)

  datatype Composition = Composition(
    version: int,
    featured: Option<PostPreview>,
    items: seq<Item>,
    status: string,
    updatedAt: Option<string>)

  /** `.map((item, idx) => ({...item, position: idx + 1}))`. */
  function Renumbered(items: seq<Item>): (r: seq<Item>)
    ensures |r| == |items|
    ensures forall k :: 0 <= k < |r| ==> r[k] == items[k].(position := k + 1)
  {
    seq(|items|, k requires 0 <= k < |items| => items[k].(position := k + 1))
  }

  /** Positions run 1..n in list order. */
  predicate Numbered(items: seq<Item>) {
    forall k :: 0 <= k < |items| ==> items[k].position == k + 1
  }

  /** The items with their positions erased: what a list holds, in order,
      apart from the numbering. */
  function Unpositioned(items: seq<Item>): (r: seq<Item>)
    ensures |r| == |items|
    ensures forall k :: 0 <= k < |r| ==> r[k] == items[k].(position := 0)
  {
    seq(|items|, k requires 0 <= k < |items| => items[k].(position := 0))
  }

  /** Renumbering changes only positions, and numbers 1..n. */
  lemma RenumberedShape(items: seq<Item>)
    ensures Numbered(Renumbered(items))
    ensures Unpositioned(Renumbered(items)) == Unpositioned(items)
  {
  }

  /** An already numbered list is left as it is. */
  lemma RenumberNumbered(items: seq<Item>)
    requires Numbered(items)
    ensures Renumbered(items) == items
  {
  }

  function PostIds(items: seq<Item>): (r: seq<string>)
    ensures |r| == |items| && forall k :: 0 <= k < |r| ==> r[k] == items[k].postId
  {
    seq(|items|, k requires 0 <= k < |items| => items[k].postId)
  }

  function ItemIds(items: seq<Item>): (r: seq<int>)
    ensures |r| == |items| && forall k :: 0 <= k < |r| ==> r[k] == items[k].id
  {
    seq(|items|, k requires 0 <= k < |items| => items[k].id)
  }

  /** No post and no item id occurs twice. */
  predicate UniqueKeys(items: seq<Item>) {
    forall i, j :: 0 <= i < |items| && 0 <= j < |items| && i != j ==>
      items[i].postId != items[j].postId && items[i].id != items[j].id
  }

  /** The composition invariants: positions 1..n, no post or item id twice,
      the lead never also supporting, at most six supporting items. */
  predicate WellFormed(c: Composition) {
    && Numbered(c.items)
    && UniqueKeys(c.items)
    && (c.featured.Some? ==> c.featured.value.id !in PostIds(c.items))
    && |c.items| <= SupportingMaxItems
  }

  lemma UniqueTail(items: seq<Item>)
    requires items != [] && UniqueKeys(items)
    ensures UniqueKeys(items[1..])
    ensures forall k :: 1 <= k < |items| ==> items[k].postId != items[0].postId && items[k].id != items[0].id
  {
    var tail := items[1..];
    forall i, j | 0 <= i < |tail| && 0 <= j < |tail| && i != j
      ensures tail[i].postId != tail[j].postId && tail[i].id != tail[j].id
    {
      assert tail[i] == items[i + 1] && tail[j] == items[j + 1];
    }
  }

  /** Keys stay unique when items are dropped. */
  lemma {:induction false} FilterUnique(items: seq<Item>, keep: Item -> bool)
    requires UniqueKeys(items)
    ensures UniqueKeys(Filter(items, keep))
  {
    if items != [] {
      var tail := items[1..];
      UniqueTail(items);
      FilterUnique(tail, keep);
      var rest := Filter(tail, keep);
      if keep(items[0]) {
        forall k | 0 <= k < |rest| ensures rest[k].postId != items[0].postId && rest[k].id != items[0].id {
          assert rest[k] in tail;
          var j :| 0 <= j < |tail| && tail[j] == rest[k];
          assert tail[j] == items[j + 1];
        }
        ConsUnique(items[0], rest);
      }
    }
  }

  lemma ConsUnique(x: Item, rest: seq<Item>)
    requires UniqueKeys(rest)
    requires forall k :: 0 <= k < |rest| ==> rest[k].postId != x.postId && rest[k].id != x.id
    ensures UniqueKeys([x] + rest)
  {
    var r := [x] + rest;
    forall i, j | 0 <= i < |r| && 0 <= j < |r| && i != j ensures r[i].postId != r[j].postId && r[i].id != r[j].id {
      if i > 0 && j > 0 {
        assert r[i] == rest[i - 1] && r[j] == rest[j - 1];
      } else if i == 0 {
        assert r[j] == rest[j - 1];
      } else {
        assert r[i] == rest[i - 1];
      }
    }
  }

  /** Every post id left after a filter was there before. */
  lemma FilterPostIds(items: seq<Item>, keep: Item -> bool, id: string)
    requires id !in PostIds(items)
    ensures id !in PostIds(Filter(items, keep))
  {
    var kept := Filter(items, keep);
    forall k | 0 <= k < |kept| ensures kept[k].postId != id {
      assert kept[k] in items;
      var j :| 0 <= j < |items| && items[j] == kept[k];
      assert PostIds(items)[j] == items[j].postId;
    }
  }

  /** Renumbering keeps the ids. */
  lemma RenumberedIds(items: seq<Item>)
    ensures PostIds(Renumbered(items)) == PostIds(items)
    ensures ItemIds(Renumbered(items)) == ItemIds(items)
    ensures UniqueKeys(items) ==> UniqueKeys(Renumbered(items))
  {
  }

  /** The optimistic update of `handleSetLead`. */
  function WithLead(c: Composition, post: AdminPost): Composition {
    c.(featured := Some(ToPreview(post)),
       items := Renumbered(Filter(c.items, (x: Item) => x.postId != post.id)))
  }

  /** Setting a lead makes the post the lead, drops every supporting item of
      that post, keeps the others in order and renumbers them. */
  lemma SetLead(c: Composition, post: AdminPost)
    requires WellFormed(c)
    ensures var r := WithLead(c, post);
      && WellFormed(r)
      && r.featured == Some(ToPreview(post))
      && post.id !in PostIds(r.items)
      && Unpositioned(r.items) == Unpositioned(Filter(c.items, (x: Item) => x.postId != post.id))
  {
    var kept := Filter(c.items, (x: Item) => x.postId != post.id);
    FilterUnique(c.items, (x: Item) => x.postId != post.id);
    RenumberedIds(kept);
    RenumberedShape(kept);
    forall k | 0 <= k < |kept| ensures PostIds(kept)[k] != post.id {
      assert kept[k] in c.items;
    }
  }

  /** The optimistic update of `handleRemoveLead`. */
  function WithoutLead(c: Composition): (r: Composition)
    ensures r.featured == None
    ensures r.(featured := c.featured) == c
  {
    c.(featured := None)
  }

  lemma RemoveLead(c: Composition)
    requires WellFormed(c)
    ensures WellFormed(WithoutLead(c))
  {
  }

  /** The optimistic update of `handleAddSupporting`. */
  function WithSupporting(c: Composition, item: Item): Composition {
    c.(items := Renumbered(c.items + [item]))
  }

  /** A permitted add appends exactly one item for the post, at position
      n + 1, and leaves the numbered items before it as they were. */
  lemma AddSupporting(c: Composition, item: Item)
    requires WellFormed(c)
    requires |c.items| < SupportingMaxItems
    requires item.postId !in PostIds(c.items) && item.id !in ItemIds(c.items)
    requires c.featured.None? || c.featured.value.id != item.postId
    ensures var r := WithSupporting(c, item);
      && WellFormed(r)
      && |r.items| == |c.items| + 1
      && r.items[..|c.items|] == c.items
      && r.items[|c.items|] == item.(position := |c.items| + 1)
  {
    var r := WithSupporting(c, item);
    var n := |c.items|;
    assert forall k :: 0 <= k < n ==> c.items[k].postId != item.postId && c.items[k].id != item.id by {
      forall k | 0 <= k < n ensures c.items[k].postId != item.postId && c.items[k].id != item.id {
        assert PostIds(c.items)[k] == c.items[k].postId;
        assert ItemIds(c.items)[k] == c.items[k].id;
      }
    }
    assert PostIds(r.items) == PostIds(c.items) + [item.postId];
  }

  /** The optimistic update of `handleRemoveSupporting`. */
  function WithoutItem(c: Composition, itemId: int): Composition {
    c.(items := Renumbered(Filter(c.items, (x: Item) => x.id != itemId)))
  }

  /** Removing drops exactly the items with that id, keeps the rest in
      order and renumbers them from 1. */
  lemma RemoveSupporting(c: Composition, itemId: int)
    requires WellFormed(c)
    ensures var r := WithoutItem(c, itemId);
      && WellFormed(r)
      && itemId !in ItemIds(r.items)
      && Unpositioned(r.items) == Unpositioned(Filter(c.items, (x: Item) => x.id != itemId))
  {
    var kept := Filter(c.items, (x: Item) => x.id != itemId);
    FilterUnique(c.items, (x: Item) => x.id != itemId);
    RenumberedIds(kept);
    RenumberedShape(kept);
    if c.featured.Some? {
      FilterPostIds(c.items, (x: Item) => x.id != itemId, c.featured.value.id);
    }
    forall k | 0 <= k < |kept| ensures ItemIds(kept)[k] != itemId {
      assert kept[k] in c.items;
    }
  }

  /** `arrayMove(s, from, to)`: the element at `from` taken out and put back
      at index `to`. */
  function ArrayMove<T>(s: seq<T>, from: nat, to: nat): (r: seq<T>)
    requires from < |s| && to < |s|
    ensures |r| == |s|
    ensures r[to] == s[from]
  {
    var rest := s[..from] + s[from + 1..];
    rest[..to] + [s[from]] + rest[to..]
  }

  /** The index in the old list of the element a move puts at `k`. */
  function MovedIndex(from: nat, to: nat, k: nat): nat {
    if k == to then from
    else
      var j := if k < to then k else k - 1;
      if j < from then j else j + 1
  }

  lemma ArrayMoveAt<T>(s: seq<T>, from: nat, to: nat, k: nat)
    requires from < |s| && to < |s| && k < |s|
    ensures MovedIndex(from, to, k) < |s|
    ensures ArrayMove(s, from, to)[k] == s[MovedIndex(from, to, k)]
  {
  }

  /** A move is a permutation. */
  lemma ArrayMovePermutes<T>(s: seq<T>, from: nat, to: nat)
    requires from < |s| && to < |s|
    ensures multiset(ArrayMove(s, from, to)) == multiset(s)
  {
    var rest := s[..from] + s[from + 1..];
    calc {
      multiset(s);
      { assert s == s[..from] + [s[from]] + s[from + 1..]; }
      multiset(s[..from]) + multiset{s[from]} + multiset(s[from + 1..]);
      multiset(rest) + multiset{s[from]};
      { assert rest == rest[..to] + rest[to..]; }
      multiset(rest[..to]) + multiset{s[from]} + multiset(rest[to..]);
      multiset(ArrayMove(s, from, to));
    }
  }

  /** A move keeps keys unique and moves no post in or out. */
  lemma MoveUnique(items: seq<Item>, from: nat, to: nat)
    requires from < |items| && to < |items| && UniqueKeys(items)
    ensures UniqueKeys(ArrayMove(items, from, to))
    ensures forall x :: x !in PostIds(items) ==> x !in PostIds(ArrayMove(items, from, to))
  {
    var r := ArrayMove(items, from, to);
    forall k | 0 <= k < |r| ensures r[k] == items[MovedIndex(from, to, k)] && MovedIndex(from, to, k) < |items| {
      ArrayMoveAt(items, from, to, k);
    }
    forall x | x !in PostIds(items) ensures x !in PostIds(r) {
      forall k | 0 <= k < |r| ensures PostIds(r)[k] != x {
        assert PostIds(items)[MovedIndex(from, to, k)] == r[k].postId;
      }
    }
  }

  /** `items.findIndex(item => item.id === id)`. */
  function FindItem(items: seq<Item>, id: int): (r: int)
    ensures -1 <= r < |items|
    ensures r >= 0 ==> items[r].id == id && forall k :: 0 <= k < r ==> items[k].id != id
    ensures r == -1 <==> id !in ItemIds(items)
  {
    if items == [] then -1
    else if items[0].id == id then 0
    else
      var k := FindItem(items[1..], id);
      assert forall j :: 0 < j < |items| ==> items[j] == items[1..][j - 1];
      assert k == -1 ==> forall j :: 0 <= j < |items| ==> items[j].id != id;
      if k == -1 then -1 else k + 1
  }

  /** The reordered list of `handleDragEnd`, or `None` when the drag is a
      no-op: no target, the same item, or an id that is not in the list. */
  function Dragged(items: seq<Item>, activeId: int, overId: Option<int>): (r: Option<seq<Item>>)
    ensures overId.None? || overId == Some(activeId) ==> r.None?
    ensures overId.Some? && (activeId !in ItemIds(items) || overId.value !in ItemIds(items)) ==> r.None?
    ensures overId.Some? && overId.value != activeId && activeId in ItemIds(items) && overId.value in ItemIds(items)
            ==> r.Some?
    ensures r.Some? ==>
      var from := FindItem(items, activeId);
      var to := FindItem(items, overId.value);
      && from >= 0 && to >= 0
      && r.value == Renumbered(ArrayMove(items, from, to))
  {
    if overId.None? || overId.value == activeId then None
    else
      var from := FindItem(items, activeId);
      var to := FindItem(items, overId.value);
      if from < 0 || to < 0 then None
      else Some(Renumbered(ArrayMove(items, from, to)))
  }

  /** Erasing positions commutes with a move. */
  lemma UnpositionedMove(items: seq<Item>, from: nat, to: nat)
    requires from < |items| && to < |items|
    ensures Unpositioned(ArrayMove(items, from, to)) == ArrayMove(Unpositioned(items), from, to)
  {
    var l := Unpositioned(ArrayMove(items, from, to));
    var r := ArrayMove(Unpositioned(items), from, to);
    forall k | 0 <= k < |items| ensures l[k] == r[k] {
      ArrayMoveAt(items, from, to, k);
      ArrayMoveAt(Unpositioned(items), from, to, k);
    }
  }

  /** A drag keeps the same items, puts the dragged one at the target's
      index, and renumbers 1..n. */
  lemma DragReorders(c: Composition, activeId: int, overId: Option<int>)
    requires WellFormed(c)
    requires Dragged(c.items, activeId, overId).Some?
    ensures var moved := Dragged(c.items, activeId, overId).value;
      && WellFormed(c.(items := moved))
      && multiset(Unpositioned(moved)) == multiset(Unpositioned(c.items))
      && moved[FindItem(c.items, overId.value)].id == activeId
  {
    var from := FindItem(c.items, activeId);
    var to := FindItem(c.items, overId.value);
    var m := ArrayMove(c.items, from, to);
    var moved := Renumbered(m);
    assert Dragged(c.items, activeId, overId).value == moved;
    RenumberedShape(m);
    RenumberedIds(m);
    MoveUnique(c.items, from, to);
    UnpositionedMove(c.items, from, to);
    ArrayMovePermutes(Unpositioned(c.items), from, to);
    assert moved[to] == m[to].(position := to + 1);
  }

  /** The composition as `loadComposition` stores it: status `SAVED`, items
      sorted by position. */
  function Received(data: Composition): (r: Composition)
    ensures r.status == "SAVED" && r.version == data.version && r.featured == data.featured
    ensures SortedBy(r.items, (x: Item) => x.position)
    ensures multiset(r.items) == multiset(data.items)
  {
    data.(status := "SAVED", items := SortBy(data.items, (x: Item) => x.position))
  }

  /** Data that is already numbered arrives unchanged apart from its status. */
  lemma ReceivedNumbered(data: Composition)
    requires Numbered(data.items)
    ensures Received(data) == data.(status := "SAVED")
  {
    assert SortedBy(data.items, (x: Item) => x.position);
    SortSorted(data.items, (x: Item) => x.position);
  }

  // ---------------------------------------------------------------------
  // The component

  datatype Tone = Success | Failure | Info
  datatype Banner = Banner(tone: Tone, message: string)
  datatype PickerMode = LeadPicker | SupportingPicker
  datatype SectionFilter = AllSections | Editorial | Diary | Notes

  /** The story picker's state. */
  datatype Picker = Picker(
    mode: Option<PickerMode>,
    query: string,
    page: int,
    totalPages: int,
    posts: seq<AdminPost>,
    filter: SectionFilter)

  /** A call to the front-page API, with the version it expects. */
  datatype ApiCall =
    | SetFeatured(postId: string, version: int)
    | RemoveFeatured(version: int)
    | AddCurated(postId: string, position: int, version: int)
    | DeleteItem(itemId: int, version: int)
    | Reorder(ids: seq<int>, version: int)

  /** The result of an awaited call. */
  datatype Outcome = Done | Failed(error: ErrorValue)

  /** The result of `getFrontPageComposition`. */
  datatype Load = Loaded(data: Composition) | LoadFailed(error: ErrorValue)

  const ConflictMessage: string := "Layout changed elsewhere. Data has been refreshed."
  const MaxItemsMessage: string := "Maximum 6 supporting stories allowed."

  /** The error that ends a mutation: the call's own, or the reload's. */
  function MutationError(api: Outcome, reload: Load): ErrorValue {
    if api.Failed? then api.error else if reload.LoadFailed? then reload.error else NonError
  }

  /** `pending` without `id`. */
  /** The post is the lead, already supporting, or already being added. */
  predicate AlreadyPlaced(c: Composition, id: string, pending: seq<string>) {
    (c.featured.Some? && c.featured.value.id == id) || id in PostIds(c.items) || id in pending
  }

  function Without(pending: seq<string>, id: string): (r: seq<string>)
    ensures id !in r
    ensures forall x :: x != id ==> (x in r <==> x in pending)
    ensures id !in pending ==> r == pending
  {
    if pending == [] then []
    else (if pending[0] == id then [] else [pending[0]]) + Without(pending[1..], id)
  }

  lemma {:induction false} WithoutDistinct(pending: seq<string>, id: string)
    requires Distinct(pending)
    ensures Distinct(Without(pending, id))
  {
    if pending != [] {
      var tail := pending[1..];
      assert Distinct(tail) by {
        forall i, j | 0 <= i < j < |tail| ensures tail[i] != tail[j] {
          assert tail[i] == pending[i + 1] && tail[j] == pending[j + 1];
        }
      }
      WithoutDistinct(tail, id);
      assert pending[0] !in tail by {
        forall k | 0 <= k < |tail| ensures tail[k] != pending[0] {
          assert tail[k] == pending[k + 1];
        }
      }
    }
  }

  /** An add that starts with `id` not pending leaves the pending list as it
      found it. */
  lemma WithoutAppended(pending: seq<string>, id: string)
    requires id !in pending
    ensures Without(pending + [id], id) == pending
  {
    WithoutSnoc(pending, id);
  }

  lemma {:induction false} WithoutSnoc(pending: seq<string>, id: string)
    requires id !in pending
    ensures Without(pending + [id], id) == pending
  {
    if pending != [] {
      assert (pending + [id])[1..] == pending[1..] + [id];
      WithoutSnoc(pending[1..], id);
      assert pending == [pending[0]] + pending[1..];
    }
  }

  class Manager {
    var composition: Option<Composition>
    var saving: bool
    var banner: Option<Banner>
    var modalToast: Option<Banner>
    var picker: Picker
    var pendingAdd: seq<string>
    /** Every front-page API call made, oldest first. */
    var calls: seq<ApiCall>

    ghost predicate Valid()
      reads this
    {
      Distinct(pendingAdd)
    }

    constructor ()
      ensures Valid()
      ensures composition == None && !saving && banner == None && modalToast == None
      ensures picker == Picker(None, "", 0, 1, [], AllSections) && pendingAdd == [] && calls == []
    {
      composition := None;
      saving := false;
      banner := None;
      modalToast := None;
      picker := Picker(None, "", 0, 1, [], AllSections);
      pendingAdd := [];
      calls := [];
    }

    /** The first load when the page opens: its answer is shown, sorted by
        position, and every handler can act on it from then on; a failure
        leaves nothing to show and puts the error's message in the banner. */
    method Bootstrap(load: Load, parseMessage: string -> Option<string>)
      requires Valid()
      modifies this
      ensures Valid()
      ensures load.Loaded? ==> composition == Some(Received(load.data)) && banner == old(banner)
      ensures load.Loaded? ==> SortedBy(composition.value.items, (x: Item) => x.position)
      ensures load.LoadFailed? ==>
                composition == old(composition)
                && banner == Some(Banner(Failure, NormalizeErrorMessage(load.error, parseMessage)))
      ensures saving == old(saving) && modalToast == old(modalToast)
      ensures picker == old(picker) && pendingAdd == old(pendingAdd) && calls == old(calls)
    {
      match load
      case Loaded(data) =>
        composition := Some(Received(data));
      case LoadFailed(error) =>
        banner := Some(Banner(Failure, NormalizeErrorMessage(error, parseMessage)));
    }

    /** How a mutation started from `before` ends: `saving` is over, and
        - after the call and the reload succeed, the reloaded composition
          with a success banner;
        - after a failure that is not a conflict, `before` again with the
          error's message;
        - after a conflict, the freshly loaded composition (or `before` when
          that load fails too) with the conflict message.
        The picker, when open, shows the banner as its toast. */
    ghost predicate Settled(before: Composition, successMessage: string, api: Outcome, reload: Load,
                            conflictReload: Load, parseMessage: string -> Option<string>)
      reads this
    {
      var failed := !(api.Done? && reload.Loaded?);
      var error := MutationError(api, reload);
      && !saving
      && (picker.mode.Some? ==> modalToast == banner)
      && (!failed ==>
            composition == Some(Received(reload.data)) && banner == Some(Banner(Success, successMessage)))
      && (failed && !IsConflictError(error, parseMessage) ==>
            composition == Some(before)
            && banner == Some(Banner(Failure, NormalizeErrorMessage(error, parseMessage))))
      && (failed && IsConflictError(error, parseMessage) ==>
            composition == Some(if conflictReload.Loaded? then Received(conflictReload.data) else before)
            && banner == Some(Banner(Failure, ConflictMessage)))
    }

    /** The part of `runMutation` before the await: the optimistic state is
        shown and the call is made with the version it was computed from. */
    method BeginMutation(updater: Composition -> Composition, apiCall: int -> ApiCall) returns (before: Composition)
      requires composition.Some?
      modifies this
      ensures before == old(composition).value
      ensures composition == Some(updater(before))
      ensures saving && banner == None && modalToast == None
      ensures calls == old(calls) + [apiCall(before.version)]
      ensures picker == old(picker) && pendingAdd == old(pendingAdd)
    {
      before := composition.value;
      var optimistic := updater(before);
      composition := Some(optimistic);
      saving := true;
      banner := None;
      modalToast := None;
      calls := calls + [apiCall(before.version)];
    }

    /** The part of `runMutation` after the await. On success the reloaded
        composition and a success banner; on failure the composition from
        before the update, then a reload after a conflict; `saving` ends
        false either way. */
    method FinishMutation(before: Composition, successMessage: string, api: Outcome, reload: Load,
                          conflictReload: Load, parseMessage: string -> Option<string>)
      modifies this
      ensures !saving
      ensures calls == old(calls) && picker == old(picker) && pendingAdd == old(pendingAdd)
      ensures Settled(before, successMessage, api, reload, conflictReload, parseMessage)
      ensures picker.mode.None? ==> modalToast == old(modalToast)
      ensures api.Done? && reload.Loaded? ==>
        && composition == Some(Received(reload.data))
        && banner == Some(Banner(Success, successMessage))
        && modalToast == (if picker.mode.Some? then Some(Banner(Success, successMessage)) else old(modalToast))
      ensures !(api.Done? && reload.Loaded?) && !IsConflictError(MutationError(api, reload), parseMessage) ==>
        && composition == Some(before)
        && banner == Some(Banner(Failure, NormalizeErrorMessage(MutationError(api, reload), parseMessage)))
      ensures !(api.Done? && reload.Loaded?) && IsConflictError(MutationError(api, reload), parseMessage) ==>
        && composition == Some(if conflictReload.Loaded? then Received(conflictReload.data) else before)
        && banner == Some(Banner(Failure, ConflictMessage))
    {
      if api.Done? && reload.Loaded? {
        composition := Some(Received(reload.data));
        banner := Some(Banner(Success, successMessage));
        if picker.mode.Some? {
          modalToast := Some(Banner(Success, successMessage));
        }
      } else {
        var error := MutationError(api, reload);
        composition := Some(before);
        if IsConflictError(error, parseMessage) {
          if conflictReload.Loaded? {
            composition := Some(Received(conflictReload.data));
          }
          banner := Some(Banner(Failure, ConflictMessage));
          if picker.mode.Some? {
            modalToast := Some(Banner(Failure, ConflictMessage));
          }
        } else {
          var msg := NormalizeErrorMessage(error, parseMessage);
          banner := Some(Banner(Failure, msg));
          if picker.mode.Some? {
            modalToast := Some(Banner(Failure, msg));
          }
        }
      }
      saving := false;
    }

    /** `runMutation`: nothing without a composition; otherwise the
        optimistic update, one call with the current version, and the
        outcome of `FinishMutation`. A failure that is not a conflict
        restores the composition exactly as it was. */
    method RunMutation(updater: Composition -> Composition, apiCall: int -> ApiCall, successMessage: string,
                       api: Outcome, reload: Load, conflictReload: Load, parseMessage: string -> Option<string>)
      modifies this
      ensures picker == old(picker) && pendingAdd == old(pendingAdd)
      ensures old(composition).None? ==>
        composition == None && calls == old(calls) && saving == old(saving)
        && banner == old(banner) && modalToast == old(modalToast)
      ensures old(composition).Some? ==>
        && calls == old(calls) + [apiCall(old(composition).value.version)]
        && Settled(old(composition).value, successMessage, api, reload, conflictReload, parseMessage)
        && (picker.mode.None? ==> modalToast == None)
    {
      if composition.None? {
        return;
      }
      var before := BeginMutation(updater, apiCall);
      FinishMutation(before, successMessage, api, reload, conflictReload, parseMessage);
    }

    /** `handleSetLead`. */
    method HandleSetLead(post: AdminPost, api: Outcome, reload: Load, conflictReload: Load,
                         parseMessage: string -> Option<string>)
      modifies this
      ensures picker == old(picker) && pendingAdd == old(pendingAdd)
      ensures old(composition).None? ==> composition == None && calls == old(calls)
      ensures old(composition).Some? ==>
        && calls == old(calls) + [SetFeatured(post.id, old(composition).value.version)]
        && Settled(old(composition).value, "Lead updated", api, reload, conflictReload, parseMessage)
    {
      RunMutation(c => WithLead(c, post), v => SetFeatured(post.id, v), "Lead updated",
                  api, reload, conflictReload, parseMessage);
    }

    /** `handleRemoveLead`. */
    method HandleRemoveLead(api: Outcome, reload: Load, conflictReload: Load, parseMessage: string -> Option<string>)
      modifies this
      ensures picker == old(picker) && pendingAdd == old(pendingAdd)
      ensures old(composition).None? ==> composition == None && calls == old(calls)
      ensures old(composition).Some? ==>
        && calls == old(calls) + [RemoveFeatured(old(composition).value.version)]
        && Settled(old(composition).value, "Lead removed", api, reload, conflictReload, parseMessage)
    {
      RunMutation(WithoutLead, v => RemoveFeatured(v), "Lead removed", api, reload, conflictReload, parseMessage);
    }

    /** `handleAddSupporting`: an error toast and nothing else when six items
        exist; nothing when the post is the lead, already supporting or
        already being added; otherwise one `addCuratedPost` call at position
        n + 1, with the post pending for the duration of the call. */
    method HandleAddSupporting(post: AdminPost, now: int, api: Outcome, reload: Load, conflictReload: Load,
                               parseMessage: string -> Option<string>)
      requires Valid()
      modifies this
      ensures Valid()
      ensures pendingAdd == old(pendingAdd) && picker == old(picker)
      ensures old(composition).None? ==> composition == None && calls == old(calls) && modalToast == old(modalToast)
      ensures old(composition).Some? && |old(composition).value.items| >= SupportingMaxItems ==>
        && composition == old(composition) && calls == old(calls) && saving == old(saving)
        && modalToast == Some(Banner(Failure, MaxItemsMessage))
      ensures old(composition).Some? && |old(composition).value.items| < SupportingMaxItems
              && AlreadyPlaced(old(composition).value, post.id, old(pendingAdd)) ==>
        composition == old(composition) && calls == old(calls) && saving == old(saving) && modalToast == old(modalToast)
      ensures old(composition).Some? && |old(composition).value.items| < SupportingMaxItems
              && !AlreadyPlaced(old(composition).value, post.id, old(pendingAdd)) ==>
        && calls == old(calls) + [AddCurated(post.id, |old(composition).value.items| + 1, old(composition).value.version)]
        && Settled(old(composition).value, "Added to supporting", api, reload, conflictReload, parseMessage)
    {
      if composition.None? {
        return;
      }
      var current := composition.value;
      if |current.items| >= SupportingMaxItems {
        modalToast := Some(Banner(Failure, MaxItemsMessage));
        return;
      }
      if AlreadyPlaced(current, post.id, pendingAdd) {
        return;
      }
      SubmitSupporting(post, now, |current.items| + 1, api, reload, conflictReload, parseMessage);
    }

    /** The call of `handleAddSupporting`, with the post pending while it
        runs and no longer pending afterwards. */
    method SubmitSupporting(post: AdminPost, now: int, position: int, api: Outcome, reload: Load,
                            conflictReload: Load, parseMessage: string -> Option<string>)
      requires Valid() && composition.Some? && post.id !in pendingAdd
      modifies this
      ensures Valid()
      ensures pendingAdd == old(pendingAdd) && picker == old(picker)
      ensures calls == old(calls) + [AddCurated(post.id, position, old(composition).value.version)]
      ensures Settled(old(composition).value, "Added to supporting", api, reload, conflictReload, parseMessage)
    {
      var postId := post.id;
      var item := Item(-now, postId, position, true, false, None, None, None, ToPreview(post));
      var before := pendingAdd;
      pendingAdd := pendingAdd + [postId];
      RunMutation(c => WithSupporting(c, item), v => AddCurated(postId, position, v), "Added to supporting",
                  api, reload, conflictReload, parseMessage);
      WithoutAppended(before, postId);
      ReleasePending(postId);
    }

    /** The `finally` of the add: the post is no longer pending; nothing
        else changes. */
    method ReleasePending(postId: string)
      modifies this
      ensures pendingAdd == Without(old(pendingAdd), postId)
      ensures composition == old(composition) && saving == old(saving) && banner == old(banner)
      ensures modalToast == old(modalToast) && picker == old(picker) && calls == old(calls)
    {
      pendingAdd := Without(pendingAdd, postId);
    }

    /** `handleRemoveSupporting`. */
    method HandleRemoveSupporting(item: Item, api: Outcome, reload: Load, conflictReload: Load,
                                  parseMessage: string -> Option<string>)
      modifies this
      ensures picker == old(picker) && pendingAdd == old(pendingAdd)
      ensures old(composition).None? ==> composition == None && calls == old(calls)
      ensures old(composition).Some? ==>
        && calls == old(calls) + [DeleteItem(item.id, old(composition).value.version)]
        && Settled(old(composition).value, "Supporting story removed", api, reload, conflictReload, parseMessage)
    {
      RunMutation(c => WithoutItem(c, item.id), v => DeleteItem(item.id, v), "Supporting story removed",
                  api, reload, conflictReload, parseMessage);
    }

    /** `handleDragEnd`: nothing for a no-op drag; otherwise one reorder call
        with the ids in their new order. */
    method HandleDragEnd(activeId: int, overId: Option<int>, api: Outcome, reload: Load, conflictReload: Load,
                         parseMessage: string -> Option<string>)
      modifies this
      ensures picker == old(picker) && pendingAdd == old(pendingAdd)
      ensures old(composition).None? || Dragged(old(composition).value.items, activeId, overId).None? ==>
        composition == old(composition) && calls == old(calls) && saving == old(saving)
      ensures old(composition).Some? && Dragged(old(composition).value.items, activeId, overId).Some? ==>
        && calls == old(calls) + [Reorder(ItemIds(Dragged(old(composition).value.items, activeId, overId).value),
                                          old(composition).value.version)]
        && Settled(old(composition).value, "Order updated", api, reload, conflictReload, parseMessage)
    {
      if composition.None? {
        return;
      }
      // The guards of the handler (no target, the same item, an unknown id)
      // are those of `Dragged`.
      var dragged := Dragged(composition.value.items, activeId, overId);
      if dragged.None? {
        return;
      }
      var reordered := dragged.value;
      var orderedIds := ItemIds(reordered);
      RunMutation((c: Composition) => c.(items := reordered), v => Reorder(orderedIds, v), "Order updated",
                  api, reload, conflictReload, parseMessage);
    }

    /** `resetPickerState`: an empty first page of every section, no toast,
        nothing pending. */
    method ResetPickerState()
      modifies this
      ensures Valid()
      ensures picker == Picker(old(picker).mode, "", 0, 1, [], AllSections)
      ensures modalToast == None && pendingAdd == []
      ensures composition == old(composition) && calls == old(calls) && saving == old(saving) && banner == old(banner)
    {
      picker := Picker(picker.mode, "", 0, 1, [], AllSections);
      modalToast := None;
      pendingAdd := [];
    }

    method OpenPicker(mode: PickerMode)
      modifies this
      ensures Valid()
      ensures picker == Picker(Some(mode), "", 0, 1, [], AllSections)
      ensures modalToast == None && pendingAdd == []
      ensures composition == old(composition) && calls == old(calls) && saving == old(saving) && banner == old(banner)
    {
      ResetPickerState();
      picker := picker.(mode := Some(mode));
    }

    /** `closePicker`, and the Escape key while the picker is open. */
    method ClosePicker()
      modifies this
      ensures Valid()
      ensures picker == Picker(None, "", 0, 1, [], AllSections)
      ensures modalToast == None && pendingAdd == []
      ensures composition == old(composition) && calls == old(calls) && saving == old(saving) && banner == old(banner)
    {
      picker := picker.(mode := None);
      ResetPickerState();
    }
  }
}
