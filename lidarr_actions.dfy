/**
 * The Lidarr action creators of the web UI: each reads `state.music.lidarr`
 * and dispatches the new Lidarr state it builds (connection settings,
 * category list, one category's field), and the list loaders decide whether
 * to fetch and what they dispatch when the fetch ends.
 */
module LidarrActions {
  import opened Wrappers
  import opened MusicClients
  import opened Sequences

  // ------------------------------------------------------------ connection

  datatype ConnectionSettings = ConnectionSettings(
    hostname: string, baseUrl: string, port: int, apiKey: string, useSSL: bool, version: string)

  function Connection(s: LidarrState): ConnectionSettings
  {
    ConnectionSettings(s.hostname, s.baseUrl, s.port, s.apiKey, s.useSSL, s.version)
  }

  /** `setLidarrConnectionSettings`: the six connection keys are overwritten and nothing else moves. */
  function SetConnectionSettings(s: LidarrState, c: ConnectionSettings): (r: LidarrState)
    ensures Connection(r) == c
    ensures r.(hostname := s.hostname, baseUrl := s.baseUrl, port := s.port, apiKey := s.apiKey,
               useSSL := s.useSSL, version := s.version) == s
  {
    s.(hostname := c.hostname, baseUrl := c.baseUrl, port := c.port, apiKey := c.apiKey,
       useSSL := c.useSSL, version := c.version)
  }

  /** Writing back the settings already there changes nothing; a second write overrides the first. */
  lemma ConnectionLensLaws(s: LidarrState, c1: ConnectionSettings, c2: ConnectionSettings)
    ensures SetConnectionSettings(s, Connection(s)) == s
    ensures SetConnectionSettings(SetConnectionSettings(s, c1), c2) == SetConnectionSettings(s, c2)
  {
  }

  // ---------------------------------------------------- adding and removing

  /** `addLidarrCategory`: the category goes at the end; the others and every other key stay. */
  function AddCategory(s: LidarrState, c: Category): (r: LidarrState)
    ensures |r.categories| == |s.categories| + 1
    ensures r.categories[..|s.categories|] == s.categories && r.categories[|s.categories|] == c
    ensures r.(categories := s.categories) == s
  {
    s.(categories := s.categories + [c])
  }

  /** `categories.filter(x => x.id !== categoryId)`. */
  function WithoutId(categories: seq<Category>, id: int): (r: seq<Category>)
    ensures |r| <= |categories|
    ensures forall x :: x in r <==> x in categories && x.id != id
  {
    if categories == [] then []
    else if categories[|categories| - 1].id == id then WithoutId(categories[..|categories| - 1], id)
    else WithoutId(categories[..|categories| - 1], id) + [categories[|categories| - 1]]
  }

  /** `removeLidarrCategory`: every category with that id goes; every other key stays. */
  function RemoveCategory(s: LidarrState, id: int): (r: LidarrState)
    ensures forall x :: x in r.categories <==> x in s.categories && x.id != id
    ensures r.(categories := s.categories) == s
  {
    s.(categories := WithoutId(s.categories, id))
  }

  function Ids(categories: seq<Category>): set<int>
  {
    set x | x in categories :: x.id
  }

  /** Removing an id no category has is the identity. */
  lemma {:induction false} WithoutAbsentId(categories: seq<Category>, id: int)
    requires id !in Ids(categories)
    ensures WithoutId(categories, id) == categories
  {
    if categories != [] {
      var init := categories[..|categories| - 1];
      assert Ids(init) <= Ids(categories);
      WithoutAbsentId(init, id);
      assert init + [categories[|categories| - 1]] == categories;
    }
  }

  /** Removal keeps the survivors in order: it distributes over concatenation. */
  lemma {:induction false} WithoutIdConcat(a: seq<Category>, b: seq<Category>, id: int)
    ensures WithoutId(a + b, id) == WithoutId(a, id) + WithoutId(b, id)
    decreases |b|
  {
    if b == [] {
      assert a + b == a;
    } else {
      var init := b[..|b| - 1];
      assert (a + b)[..|a + b| - 1] == a + init;
      assert (a + b)[|a + b| - 1] == b[|b| - 1];
      WithoutIdConcat(a, init, id);
    }
  }

  /** Removing twice is removing once. */
  lemma WithoutIdIdempotent(categories: seq<Category>, id: int)
    ensures WithoutId(WithoutId(categories, id), id) == WithoutId(categories, id)
  {
    WithoutAbsentId(WithoutId(categories, id), id);
  }

  /** Adding a category with a fresh id and removing that id gives the state back. */
  lemma RemoveUndoesAdd(s: LidarrState, c: Category)
    requires c.id !in Ids(s.categories)
    ensures RemoveCategory(AddCategory(s, c), c.id) == s
  {
    WithoutAbsentId(s.categories, c.id);
    assert (s.categories + [c])[..|s.categories|] == s.categories;
  }

  // ------------------------------------------------------- editing a field

  const PrimaryTypeOrder: seq<string> := ["Album", "Broadcast", "EP", "Other", "Single"]
  const SecondaryTypeOrder: seq<string> :=
    ["Studio", "Spokenword", "Soundtrack", "Remix", "Mixtape/Street", "Live", "Interview", "DJ-mix", "Demo",
     "Compilation", "Audio drama"]
  const ReleaseStatusOrder: seq<string> := ["Pseudo-Release", "Promotion", "Official", "Bootleg"]

  /** `order.filter(x => data.includes(x))`. */
  function FilterIn<T(==,!new)>(order: seq<T>, data: seq<T>): (r: seq<T>)
    ensures |r| <= |order|
    ensures forall x :: x in r <==> x in order && x in data
  {
    if order == [] then []
    else if order[0] in data then [order[0]] + FilterIn(order[1..], data)
    else FilterIn(order[1..], data)
  }

  /**
   * The result depends only on which entries of the list `data` holds, not
   * on their order, on repeats or on values outside the list.
   */
  lemma {:induction false} FilterInSameElements<T(!new)>(order: seq<T>, d1: seq<T>, d2: seq<T>)
    requires forall x :: x in order ==> (x in d1 <==> x in d2)
    ensures FilterIn(order, d1) == FilterIn(order, d2)
  {
    if order != [] {
      FilterInSameElements(order[1..], d1, d2);
    }
  }

  /** Filtering by what was already selected selects it again. */
  lemma FilterInIdempotent<T(!new)>(order: seq<T>, data: seq<T>)
    ensures FilterIn(order, FilterIn(order, data)) == FilterIn(order, data)
  {
    FilterInSameElements(order, FilterIn(order, data), data);
  }

  /** A list without repeats yields a selection without repeats. */
  lemma {:induction false} FilterInDistinct<T(!new)>(order: seq<T>, data: seq<T>)
    requires Distinct(order)
    ensures Distinct(FilterIn(order, data))
  {
    if order != [] {
      assert Distinct(order[1..]) by {
        forall i, j | 0 <= i < j < |order[1..]| ensures order[1..][i] != order[1..][j] {
          assert order[1..][i] == order[i + 1] && order[1..][j] == order[j + 1];
        }
      }
      FilterInDistinct(order[1..], data);
      if order[0] in data {
        var rest := FilterIn(order[1..], data);
        assert order[0] !in order[1..] by {
          forall k | 0 <= k < |order[1..]| ensures order[1..][k] != order[0] {
            assert order[1..][k] == order[k + 1];
          }
        }
        assert order[0] !in rest;
        var r := [order[0]] + rest;
        forall i, j | 0 <= i < j < |r| ensures r[i] != r[j] {
          if i == 0 {
            assert r[j] == rest[j - 1];
          } else {
            assert r[i] == rest[i - 1] && r[j] == rest[j - 1];
          }
        }
      }
    }
  }

  /** Selecting everything in the list gives the whole list. */
  lemma {:induction false} FilterInAll<T(!new)>(order: seq<T>, data: seq<T>)
    requires forall x :: x in order ==> x in data
    ensures FilterIn(order, data) == order
  {
    if order != [] {
      FilterInAll(order[1..], data);
      assert [order[0]] + order[1..] == order;
    }
  }

  /** The field a `setLidarrCategory` call writes, with the data it carries; `Unknown` is any other field name. */
  datatype Edit =
    | SetName(name: string)
    | SetProfileId(profileId: int)
    | SetMetadataProfileId(metadataProfileId: int)
    | SetRootFolder(rootFolder: string)
    | SetTags(tagIds: seq<int>)
    | SetPrimaryTypes(primaryTypes: seq<string>)
    | SetSecondaryTypes(secondaryTypes: seq<string>)
    | SetReleaseStatuses(releaseStatuses: seq<string>)
    | Unknown(field: string)

  function TagIds(tags: seq<Tag>): (r: seq<int>)
    ensures |r| == |tags|
    ensures forall i :: 0 <= i < |tags| ==> r[i] == tags[i].id
  {
    if tags == [] then [] else [tags[0].id] + TagIds(tags[1..])
  }

  /**
   * The category after one field edit. Tags keep the known tag ids named in
   * the data, in tag-list order; each type or status list keeps the entries
   * of its fixed list named in the data, in that list's order.
   */
  function Apply(c: Category, e: Edit, knownTags: seq<int>): (r: Category)
    ensures r.id == c.id
    ensures e.Unknown? ==> r == c
    ensures e.SetName? ==> r == c.(name := e.name)
    ensures e.SetProfileId? ==> r == c.(profileId := e.profileId)
    ensures e.SetMetadataProfileId? ==> r == c.(metadataProfileId := e.metadataProfileId)
    ensures e.SetRootFolder? ==> r == c.(rootFolder := e.rootFolder)
    ensures e.SetTags? ==> (r.(tags := c.tags) == c && r.tags.Some? &&
      forall t :: t in r.tags.value <==> t in knownTags && t in e.tagIds)
    ensures e.SetPrimaryTypes? ==> (r.(primaryTypes := c.primaryTypes) == c && r.primaryTypes.Some? &&
      forall t :: t in r.primaryTypes.value <==> t in PrimaryTypeOrder && t in e.primaryTypes)
    ensures e.SetSecondaryTypes? ==> (r.(secondaryTypes := c.secondaryTypes) == c && r.secondaryTypes.Some? &&
      forall t :: t in r.secondaryTypes.value <==> t in SecondaryTypeOrder && t in e.secondaryTypes)
    ensures e.SetReleaseStatuses? ==> (r.(releaseStatuses := c.releaseStatuses) == c && r.releaseStatuses.Some? &&
      forall t :: t in r.releaseStatuses.value <==> t in ReleaseStatusOrder && t in e.releaseStatuses)
  {
    match e
    case SetName(v) => c.(name := v)
    case SetProfileId(v) => c.(profileId := v)
    case SetMetadataProfileId(v) => c.(metadataProfileId := v)
    case SetRootFolder(v) => c.(rootFolder := v)
    case SetTags(v) => c.(tags := Some(FilterIn(knownTags, v)))
    case SetPrimaryTypes(v) => c.(primaryTypes := Some(FilterIn(PrimaryTypeOrder, v)))
    case SetSecondaryTypes(v) => c.(secondaryTypes := Some(FilterIn(SecondaryTypeOrder, v)))
    case SetReleaseStatuses(v) => c.(releaseStatuses := Some(FilterIn(ReleaseStatusOrder, v)))
    case Unknown(_) => c
  }

  /** Applying the same edit twice is applying it once. */
  lemma ApplyIdempotent(c: Category, e: Edit, knownTags: seq<int>)
    ensures Apply(Apply(c, e, knownTags), e, knownTags) == Apply(c, e, knownTags)
  {
    match e
    case SetTags(v) =>
      FilterInIdempotent(knownTags, v);
    case SetPrimaryTypes(v) =>
    case SetSecondaryTypes(v) =>
    case SetReleaseStatuses(v) =>
    case _ =>
  }

  /** The category list after editing every category with the given id. */
  function Edited(categories: seq<Category>, id: int, e: Edit, knownTags: seq<int>): (r: seq<Category>)
    ensures |r| == |categories|
    ensures forall i :: 0 <= i < |r| ==> r[i].id == categories[i].id
    ensures forall i :: 0 <= i < |r| && categories[i].id != id ==> r[i] == categories[i]
    ensures forall i :: 0 <= i < |r| && categories[i].id == id ==> r[i] == Apply(categories[i], e, knownTags)
  {
    seq(|categories|, i requires 0 <= i < |categories| =>
      if categories[i].id == id then Apply(categories[i], e, knownTags) else categories[i])
  }

  /**
   * `setLidarrCategory`: the categories are copied and every one whose id
   * matches is replaced, in a loop, by its edited copy.
   */
  method SetCategory(s: LidarrState, id: int, e: Edit) returns (r: LidarrState)
    ensures r == s.(categories := Edited(s.categories, id, e, TagIds(s.tags.items)))
  {
    var knownTags := TagIds(s.tags.items);
    var categories := new Category[|s.categories|](i requires 0 <= i < |s.categories| => s.categories[i]);
    var index := 0;
    while index < categories.Length
      invariant 0 <= index <= categories.Length == |s.categories|
      invariant forall j :: 0 <= j < index ==>
        categories[j] == if s.categories[j].id == id then Apply(s.categories[j], e, knownTags) else s.categories[j]
      invariant forall j :: index <= j < categories.Length ==> categories[j] == s.categories[j]
    {
      if categories[index].id == id {
        categories[index] := Apply(categories[index], e, knownTags);
      }
      index := index + 1;
    }
    r := s.(categories := categories[..]);
  }

  /** An unknown field name leaves every category as it was, and so does an id no category has. */
  lemma EditedNoChange(categories: seq<Category>, id: int, e: Edit, knownTags: seq<int>)
    requires e.Unknown? || id !in Ids(categories)
    ensures Edited(categories, id, e, knownTags) == categories
  {
    var r := Edited(categories, id, e, knownTags);
    forall i | 0 <= i < |categories| ensures r[i] == categories[i] {
      assert categories[i] in categories;
    }
  }

  /** Repeating the same edit changes nothing more. */
  lemma EditedIdempotent(categories: seq<Category>, id: int, e: Edit, knownTags: seq<int>)
    ensures Edited(Edited(categories, id, e, knownTags), id, e, knownTags) == Edited(categories, id, e, knownTags)
  {
    var r := Edited(categories, id, e, knownTags);
    forall i | 0 <= i < |categories|
      ensures Edited(r, id, e, knownTags)[i] == r[i]
    {
      if categories[i].id == id {
        ApplyIdempotent(categories[i], e, knownTags);
      }
    }
  }

  /** Editing a category and then removing it is removing it. */
  lemma {:induction false} RemoveAfterEdit(categories: seq<Category>, id: int, e: Edit, knownTags: seq<int>)
    ensures WithoutId(Edited(categories, id, e, knownTags), id) == WithoutId(categories, id)
  {
    if categories != [] {
      var n := |categories| - 1;
      var init := categories[..n];
      var edited := Edited(categories, id, e, knownTags);
      assert edited[..n] == Edited(init, id, e, knownTags);
      RemoveAfterEdit(init, id, e, knownTags);
      assert edited[n].id == categories[n].id;
      if categories[n].id != id {
        assert edited[n] == categories[n];
      }
    }
  }

  // -------------------------------------------------------- whole category list

  /**
   * `setLidarrCategories` as written: the new list is stored under the
   * misspelt key `categoies`, so the categories the page shows and saves
   * are not replaced.
   */
  function SetCategoriesAsWritten(s: LidarrState, categories: seq<Category>): (r: LidarrState)
    ensures r.categories == s.categories
    ensures r.categoies == Some(categories)
  {
    s.(categoies := Some(categories))
  }

  /** Whenever the new list differs from the current one, the written setter does not install it. */
  lemma SetCategoriesAsWrittenLosesList(s: LidarrState, categories: seq<Category>)
    requires categories != s.categories
    ensures SetCategoriesAsWritten(s, categories).categories != categories
  {
  }

  /** The setter as intended: the categories are replaced by a copy of the list and nothing else changes. */
  function SetCategories(s: LidarrState, categories: seq<Category>): (r: LidarrState)
    ensures r.categories == categories
    ensures r.(categories := s.categories) == s
  {
    s.(categories := categories)
  }

  /** Installing a list and reading it back gives that list; installing the current list changes nothing. */
  lemma SetCategoriesLensLaws(s: LidarrState, c1: seq<Category>, c2: seq<Category>)
    ensures SetCategories(s, s.categories) == s
    ensures SetCategories(SetCategories(s, c1), c2) == SetCategories(s, c2)
    ensures RemoveCategory(SetCategories(s, c1), 0).categories == WithoutId(c1, 0)
  {
  }

  // ------------------------------------------------------------ list loaders

  /** The fetch guard of every loader: nothing loaded and nothing loading, or a forced reload. */
  predicate ShouldFetch<T>(list: ListState<T>, forceReload: bool)
  {
    (!list.hasLoaded && !list.isLoading) || forceReload
  }

  /** What a loader dispatches: the loading flag, then the received list (with the outcome, for tags). */
  datatype Dispatched<T> = StartLoading | Received(items: seq<T>) | TagsReceived(ok: bool, tags: seq<T>)

  /**
   * What one call of a loader does. `settled` is `None` when it returns its
   * promise that never settles, else whether the fetch succeeded.
   */
  datatype LoadRun<T> = LoadRun(dispatched: seq<Dispatched<T>>, settled: Option<bool>)

  /**
   * `loadLidarrRootPaths`, `loadLidarrProfiles`, `loadLidarrMetadataProfiles`:
   * `response` is `None` when the request fails, the status is not 200 or
   * the body is not JSON, else the list received.
   */
  function LoadList<T>(list: ListState<T>, forceReload: bool, response: Option<seq<T>>): (r: LoadRun<T>)
    ensures r.dispatched == [] <==> !ShouldFetch(list, forceReload)
    ensures r.settled.None? <==> !ShouldFetch(list, forceReload)
    ensures ShouldFetch(list, forceReload) ==>
      r.dispatched == [StartLoading, Received(response.GetOr([]))] && r.settled == Some(response.Some?)
  {
    if ShouldFetch(list, forceReload) then
      LoadRun([StartLoading, Received(response.GetOr([]))], Some(response.Some?))
    else LoadRun([], None)
  }

  /** `loadLidarrTags`: as the other loaders, but the dispatched tags carry the outcome. */
  function LoadTags(list: ListState<Tag>, forceReload: bool, response: Option<seq<Tag>>): (r: LoadRun<Tag>)
    ensures r.dispatched == [] <==> !ShouldFetch(list, forceReload)
    ensures r.settled.None? <==> !ShouldFetch(list, forceReload)
    ensures ShouldFetch(list, forceReload) ==>
      r.dispatched == [StartLoading, TagsReceived(response.Some?, response.GetOr([]))] &&
      r.settled == Some(response.Some?)
  {
    if ShouldFetch(list, forceReload) then
      LoadRun([StartLoading, TagsReceived(response.Some?, response.GetOr([]))], Some(response.Some?))
    else LoadRun([], None)
  }

  /**
   * A forced reload always fetches; without it, a list already loaded or
   * still loading is not fetched again; a failed fetch dispatches an empty list.
   */
  lemma LoadGuard<T>(list: ListState<T>, forceReload: bool)
    ensures LoadList(list, true, None).dispatched != []
    ensures list.hasLoaded || list.isLoading ==> LoadList(list, false, None).dispatched == []
    ensures ShouldFetch(list, forceReload) ==>
      LoadList(list, forceReload, None).dispatched[1] == Received([]) &&
      LoadList(list, forceReload, None).settled == Some(false)
  {
  }
}
