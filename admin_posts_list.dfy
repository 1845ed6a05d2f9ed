/** The admin posts list: the section buttons and the key-to-id map loaded
    from the back end, the query the filters send, the year filter applied
    on the client, the years offered, and deleting. Every call to the back
    end is a parameter carrying its outcome, and so is the confirmation
    dialog's answer. */
module AdminPostsList {
  import opened Text
  import opened Lists
  import opened Ordering

  /** `ALL_FILTER_VALUE`. */
  const AllFilter: string := "__ALL__"
  const FallbackSections: seq<string> := ["EDITORIAL", "NOTES", "DIARY"]
  const PageSize: int := 100
  const DeleteFailedMessage: string := "Không thể xóa bài viết. Vui lòng thử lại."

  /** A section as `getAdminSections` lists it. */
  datatype SectionDto = SectionDto(id: Option<string>, key: Option<string>)

  /** A post as `getAdminPosts` lists it; `publishedYear` is the year of
      `publishedAt` in local time, absent when the post has no date. */
  datatype AdminPost = AdminPost(id: string, title: string, publishedYear: Option<int>)

  /** The loop skips a section whose key or id is missing or empty. */
  predicate Qualifies(s: SectionDto) {
    s.key.Some? && s.key.value != "" && s.id.Some? && s.id.value != ""
  }

  /** The loop writes `k` for `s`: its key or its key in capitals. */
  predicate Writes(s: SectionDto, k: string) {
    Qualifies(s) && (k == s.key.value || k == Upper(s.key.value))
  }

  /** The map the loop has built after the sections `all`, one section at
      a time. */
  function SectionMap(all: seq<SectionDto>): map<string, string>
    decreases |all|
  {
    if all == [] then map[]
    else
      var m := SectionMap(all[..|all| - 1]);
      var s := all[|all| - 1];
      if Qualifies(s) then m[s.key.value := s.id.value][Upper(s.key.value) := s.id.value] else m
  }

  /** The section keys the loop has pushed after the sections `all`. */
  function SectionKeys(all: seq<SectionDto>): seq<string>
    decreases |all|
  {
    if all == [] then []
    else
      var keys := SectionKeys(all[..|all| - 1]);
      var s := all[|all| - 1];
      if Qualifies(s) then keys + [s.key.value] else keys
  }

  /** The last section moves the map only at the keys it writes. */
  lemma SectionMapStep(all: seq<SectionDto>, k: string)
    requires all != []
    ensures Writes(all[|all| - 1], k) ==> k in SectionMap(all) && SectionMap(all)[k] == all[|all| - 1].id.value
    ensures !Writes(all[|all| - 1], k) ==>
      (k in SectionMap(all) <==> k in SectionMap(all[..|all| - 1]))
      && (k in SectionMap(all) ==> SectionMap(all)[k] == SectionMap(all[..|all| - 1])[k])
  {
  }

  /** A key is in the map exactly when some section writes it. */
  lemma {:induction false} SectionMapDomain(all: seq<SectionDto>, k: string)
    ensures k in SectionMap(all) <==> exists i :: 0 <= i < |all| && Writes(all[i], k)
    decreases |all|
  {
    if all != [] {
      var init := all[..|all| - 1];
      SectionMapDomain(init, k);
      SectionMapStep(all, k);
      assert forall i :: 0 <= i < |init| ==> init[i] == all[i];
    }
  }

  /** A key in the map maps to the id of the last section that writes it. */
  lemma {:induction false} SectionMapLastWriter(all: seq<SectionDto>, k: string)
    requires k in SectionMap(all)
    ensures exists i :: 0 <= i < |all| && Writes(all[i], k) && SectionMap(all)[k] == all[i].id.value
                        && forall j :: i < j < |all| ==> !Writes(all[j], k)
    decreases |all|
  {
    var last := |all| - 1;
    SectionMapStep(all, k);
    if !Writes(all[last], k) {
      var init := all[..last];
      SectionMapLastWriter(init, k);
      var i :| 0 <= i < |init| && Writes(init[i], k) && SectionMap(init)[k] == init[i].id.value
               && forall j :: i < j < |init| ==> !Writes(init[j], k);
      assert init[i] == all[i];
      forall j | i < j < |all| ensures !Writes(all[j], k) {
        if j < last {
          assert init[j] == all[j];
        }
      }
    }
  }

  /** The keys are those of the qualifying sections, in order; each is
      non-empty and, with its capitalised form, is in the map. */
  lemma {:induction false} SectionKeysMapped(all: seq<SectionDto>)
    ensures |SectionKeys(all)| <= |all|
    ensures forall k :: k in SectionKeys(all) <==> exists i :: 0 <= i < |all| && Qualifies(all[i]) && k == all[i].key.value
    ensures forall k :: k in SectionKeys(all) ==> k != "" && k in SectionMap(all) && Upper(k) in SectionMap(all)
    decreases |all|
  {
    if all != [] {
      var init := all[..|all| - 1];
      SectionKeysMapped(init);
      assert forall i :: 0 <= i < |init| ==> init[i] == all[i];
      forall k | k in SectionKeys(all)
        ensures k in SectionMap(all) && Upper(k) in SectionMap(all)
      {
        if k !in SectionKeys(init) {
          assert k == all[|all| - 1].key.value;
        } else {
          var i :| 0 <= i < |init| && Qualifies(init[i]) && k == init[i].key.value;
          SectionMapDomain(all, k);
          SectionMapDomain(all, Upper(k));
          assert Writes(all[i], k) && Writes(all[i], Upper(k));
        }
      }
    }
  }

  /** A key in the map comes from a qualifying section, so the loop
      pushed at least one key. */
  lemma MappedKeyHasSection(all: seq<SectionDto>, k: string)
    ensures k in SectionMap(all) ==> SectionKeys(all) != []
  {
    SectionKeysMapped(all);
    SectionMapDomain(all, k);
    if k in SectionMap(all) {
      var i :| 0 <= i < |all| && Writes(all[i], k);
      assert all[i].key.value in SectionKeys(all);
    }
  }

  /** The section loop of the sections effect. */
  method BuildSectionMap(all: seq<SectionDto>) returns (ids: map<string, string>, keys: seq<string>)
    ensures ids == SectionMap(all) && keys == SectionKeys(all)
  {
    ids := map[];
    keys := [];
    for i := 0 to |all|
      invariant ids == SectionMap(all[..i]) && keys == SectionKeys(all[..i])
    {
      assert all[..i + 1][..i] == all[..i];
      var s := all[i];
      if !Qualifies(s) {
        continue;
      }
      ids := ids[s.key.value := s.id.value];
      ids := ids[Upper(s.key.value) := s.id.value];
      keys := keys + [s.key.value];
    }
    assert all[..|all|] == all;
  }

  /** The section buttons: the loaded keys, or the fallback when there are
      none. */
  function SectionButtons(keys: seq<string>): (r: seq<string>)
    ensures r != []
    ensures keys != [] ==> r == keys
    ensures keys == [] ==> r == FallbackSections
  {
    if |keys| > 0 then keys else FallbackSections
  }

  /** The query `loadPosts` sends. */
  datatype PostsQuery = PostsQuery(sectionId: Option<string>, status: Option<string>, page: int, size: int)

  /** The filters as query parameters: "all" sends no section id and no
      status; any other section is looked up in the map, and a key it does
      not hold sends none either. */
  function QueryFor(filterSection: string, filterStatus: string, ids: map<string, string>): (q: PostsQuery)
    ensures q.page == 0 && q.size == PageSize
    ensures filterSection == AllFilter ==> q.sectionId.None?
    ensures filterSection != AllFilter && filterSection != "" && filterSection in ids ==>
      q.sectionId == Some(ids[filterSection])
    ensures filterSection !in ids ==> q.sectionId.None?
    ensures q.status.None? <==> filterStatus == AllFilter
    ensures filterStatus != AllFilter ==> q.status == Some(filterStatus)
  {
    var sectionKey := if filterSection == AllFilter then None else Some(filterSection);
    var sectionId := if sectionKey.Some? && sectionKey.value != "" && sectionKey.value in ids
                     then Some(ids[sectionKey.value]) else None;
    var status := if filterStatus == AllFilter then None else Some(filterStatus);
    PostsQuery(sectionId, status, 0, PageSize)
  }

  /** The year filter: all posts, or exactly those published in the year,
      in order. */
  function InYear(posts: seq<AdminPost>, year: Option<int>): (r: seq<AdminPost>)
    ensures year.None? ==> r == posts
    ensures year.Some? ==> forall p :: p in r <==> p in posts && p.publishedYear == year
    ensures IsSubsequence(r, posts)
  {
    if year.None? then
      SubsequenceRefl(posts);
      posts
    else
      FilterIsSubsequence(posts, (p: AdminPost) => p.publishedYear == year);
      Filter(posts, (p: AdminPost) => p.publishedYear == year)
  }

  /** The publication years of the posts that have one, in order. */
  function Years(posts: seq<AdminPost>): (r: seq<int>)
    ensures forall y :: y in r <==> exists k :: 0 <= k < |posts| && posts[k].publishedYear == Some(y)
  {
    if posts == [] then []
    else
      var rest := Years(posts[1..]);
      assert forall k :: 0 < k < |posts| ==> posts[k] == posts[1..][k - 1];
      if posts[0].publishedYear.Some? then [posts[0].publishedYear.value] + rest else rest
  }

  /** The sort key of `(a, b) => b - a`. */
  function Negated(y: int): int {
    -y
  }

  /** Years in order of their negation and without repeats are strictly
      decreasing. */
  lemma NewestFirst(r: seq<int>)
    requires Distinct(r) && SortedBy(r, Negated)
    ensures forall i, j :: 0 <= i < j < |r| ==> r[i] > r[j]
  {
    forall i, j | 0 <= i < j < |r| ensures r[i] > r[j] {
      assert Negated(r[i]) <= Negated(r[j]);
    }
  }

  /** `availableYears`: each publication year once, newest first. */
  function AvailableYears(posts: seq<AdminPost>): (r: seq<int>)
    ensures forall y :: y in r <==> exists k :: 0 <= k < |posts| && posts[k].publishedYear == Some(y)
    ensures forall i, j :: 0 <= i < j < |r| ==> r[i] > r[j]
  {
    var years := Dedup(Years(posts));
    var r := SortBy(years, Negated);
    DistinctPermutation(years, r);
    NewestFirst(r);
    assert forall y :: y in r <==> y in multiset(years);
    r
  }

  /** A click on one of the filter buttons: a section key, a status value,
      or a year (`None` for the "All" button). */
  datatype FilterChoice = BySection(key: string) | ByStatus(status: string) | ByYear(year: Option<int>)

  class PostsList {
    var filterSection: string
    var filterStatus: string
    var filterYear: Option<int>
    var posts: seq<AdminPost>
    var allPosts: seq<AdminPost>
    var loading: bool
    var totalElements: int
    var sections: seq<string>
    var sectionIdByKey: map<string, string>

    /** The count is never negative; every section button is a key the map
        holds, unless the buttons are the fallback and the map is empty. */
    ghost predicate Valid()
      reads this
    {
      && totalElements >= 0
      && sections != []
      && ((sections == FallbackSections && sectionIdByKey == map[])
          || forall k :: k in sections ==> k in sectionIdByKey)
    }

    constructor ()
      ensures Valid()
      ensures filterSection == AllFilter && filterStatus == AllFilter && filterYear.None?
      ensures posts == [] && allPosts == [] && loading && totalElements == 0
      ensures sections == FallbackSections && sectionIdByKey == map[]
    {
      filterSection := AllFilter;
      filterStatus := AllFilter;
      filterYear := None;
      posts := [];
      allPosts := [];
      loading := true;
      totalElements := 0;
      sections := FallbackSections;
      sectionIdByKey := map[];
    }

    /** The sections effect with what `getAdminSections` answered: on an
        answer the map and the buttons from the loop; on a failure an empty
        map and the fallback buttons. */
    method LoadSections(answer: Option<seq<SectionDto>>)
      requires Valid()
      modifies this
      ensures Valid()
      ensures answer.Some? ==>
        sectionIdByKey == SectionMap(answer.value) && sections == SectionButtons(SectionKeys(answer.value))
      ensures answer.None? ==> sectionIdByKey == map[] && sections == FallbackSections
      ensures posts == old(posts) && allPosts == old(allPosts) && totalElements == old(totalElements)
      ensures filterSection == old(filterSection) && filterStatus == old(filterStatus)
      ensures filterYear == old(filterYear) && loading == old(loading)
    {
      if answer.None? {
        sectionIdByKey := map[];
        sections := FallbackSections;
        return;
      }
      var ids, keys := BuildSectionMap(answer.value);
      SectionKeysMapped(answer.value);
      if keys == [] {
        forall k ensures k !in ids {
          MappedKeyHasSection(answer.value, k);
        }
      }
      sectionIdByKey := ids;
      sections := SectionButtons(keys);
    }

    /** `loadPosts` with what `getAdminPosts` answered (`None` for a throw,
        an answer whose `content` may be missing otherwise). The query comes
        from the filters; on an answer every post is kept for the years and
        the year filter picks the shown ones, whose number becomes the
        total; on a failure no post is shown. Loading ends either way. */
    method LoadPosts(answer: Option<Option<seq<AdminPost>>>) returns (query: PostsQuery)
      requires Valid()
      modifies this
      ensures Valid() && !loading
      ensures query == QueryFor(filterSection, filterStatus, sectionIdByKey)
      ensures answer.Some? ==>
        allPosts == answer.value.GetOr([]) && posts == InYear(allPosts, filterYear) && totalElements == |posts|
      ensures answer.None? ==>
        posts == [] && allPosts == old(allPosts) && totalElements == old(totalElements)
      ensures filterSection == old(filterSection) && filterStatus == old(filterStatus) && filterYear == old(filterYear)
      ensures sections == old(sections) && sectionIdByKey == old(sectionIdByKey)
    {
      loading := true;
      query := QueryFor(filterSection, filterStatus, sectionIdByKey);
      if answer.Some? {
        allPosts := answer.value.GetOr([]);
        posts := InYear(allPosts, filterYear);
        totalElements := |posts|;
      } else {
        posts := [];
      }
      loading := false;
    }

    /** The years offered by the year buttons. */
    function OfferedYears(): (r: seq<int>)
      reads this
      ensures forall y :: y in r <==> exists k :: 0 <= k < |allPosts| && allPosts[k].publishedYear == Some(y)
      ensures forall i, j :: 0 <= i < j < |r| ==> r[i] > r[j]
    {
      AvailableYears(allPosts)
    }

    /** `handleDelete`: nothing without confirmation; after a delete the
        post leaves the list, the others keep their order, and the total
        drops by one but not below zero; a failure alerts and changes
        nothing. */
    method HandleDelete(postId: string, confirmed: bool, deleted: bool) returns (alert: Option<string>)
      requires Valid()
      modifies this
      ensures Valid()
      ensures confirmed && deleted ==>
        && posts == Filter(old(posts), (p: AdminPost) => p.id != postId)
        && (forall p :: p in posts <==> p in old(posts) && p.id != postId)
        && IsSubsequence(posts, old(posts))
        && totalElements == (if old(totalElements) - 1 > 0 then old(totalElements) - 1 else 0)
        && alert.None?
      ensures confirmed && !deleted ==>
        posts == old(posts) && totalElements == old(totalElements) && alert == Some(DeleteFailedMessage)
      ensures !confirmed ==> posts == old(posts) && totalElements == old(totalElements) && alert.None?
      ensures allPosts == old(allPosts) && sections == old(sections) && sectionIdByKey == old(sectionIdByKey)
      ensures filterSection == old(filterSection) && filterStatus == old(filterStatus)
      ensures filterYear == old(filterYear) && loading == old(loading)
    {
      if !confirmed {
        return None;
      }
      if !deleted {
        return Some(DeleteFailedMessage);
      }
      FilterIsSubsequence(posts, (p: AdminPost) => p.id != postId);
      posts := Filter(posts, (p: AdminPost) => p.id != postId);
      totalElements := if totalElements - 1 > 0 then totalElements - 1 else 0;
      alert := None;
    }

    /** A filter button sets its one filter; the posts effect then runs
        again (`LoadPosts`) with the new filters. */
    method SelectFilter(choice: FilterChoice)
      requires Valid()
      modifies this
      ensures Valid()
      ensures filterSection == (if choice.BySection? then choice.key else old(filterSection))
      ensures filterStatus == (if choice.ByStatus? then choice.status else old(filterStatus))
      ensures filterYear == (if choice.ByYear? then choice.year else old(filterYear))
      ensures posts == old(posts) && allPosts == old(allPosts) && totalElements == old(totalElements)
      ensures sections == old(sections) && sectionIdByKey == old(sectionIdByKey) && loading == old(loading)
    {
      match choice {
        case BySection(key) => filterSection := key;
        case ByStatus(status) => filterStatus := status;
        case ByYear(year) => filterYear := year;
      }
    }
  }
}
