/**
 * The music slice of the web UI's store: the Lidarr settings the page edits
 * and the reducer that fills them from the server's settings and switches
 * the client off.
 */
module MusicClients {
  import opened Wrappers

  /**
   * A Lidarr category as the UI holds it. The server sends every field;
   * the type lists and tags may be null (`None`).
   */
  datatype Category = Category(
    id: int,
    name: string,
    profileId: int,
    metadataProfileId: int,
    rootFolder: string,
    tags: Option<seq<int>>,
    releaseTypes: Option<seq<string>>,
    primaryTypes: Option<seq<string>>,
    secondaryTypes: Option<seq<string>>,
    releaseStatuses: Option<seq<string>>)

  datatype RootPath = RootPath(id: int, path: string)
  datatype Profile = Profile(id: int, name: string)
  datatype Tag = Tag(id: int, name: string)

  /** One list the page loads from Lidarr: its `isLoading…`, `hasLoaded…` and `are…Valid` flags and its items. */
  datatype ListState<T> = ListState(isLoading: bool, hasLoaded: bool, isValid: bool, items: seq<T>)

  /**
   * `state.music.lidarr`. `categoies` is a key only the category-list
   * setter of the Lidarr actions writes; `None` when the key is absent.
   */
  datatype LidarrState = LidarrState(
    hostname: string,
    baseUrl: string,
    port: int,
    apiKey: string,
    useSSL: bool,
    categories: seq<Category>,
    categoies: Option<seq<Category>>,
    searchNewRequests: bool,
    monitorNewRequests: bool,
    version: string,
    paths: ListState<RootPath>,
    profiles: ListState<Profile>,
    metadataProfiles: ListState<Profile>,
    tags: ListState<Tag>)

  /** `state.music`; the initial state `{}` has none of its keys. */
  datatype MusicState = MusicState(
    client: Option<string>,
    restrictions: Option<string>,
    lidarr: Option<LidarrState>,
    otherCategories: Option<seq<string>>)

  /** The Lidarr part of the server's music settings. */
  datatype LidarrPayload = LidarrPayload(
    hostname: string,
    baseUrl: string,
    port: int,
    apiKey: string,
    useSSL: bool,
    categories: seq<Category>,
    searchNewRequests: bool,
    monitorNewRequests: bool,
    version: string)

  /** The server's music settings; `restrictions` may be null. */
  datatype SettingsPayload = SettingsPayload(
    client: string,
    restrictions: Option<string>,
    lidarr: LidarrPayload,
    otherCategories: seq<string>)

  datatype Action = GetSettings(payload: SettingsPayload) | SetDisabledClient | OtherAction(name: string)

  const DefaultPrimaryTypes: seq<string> := ["Album", "EP", "Single"]
  const DefaultSecondaryTypes: seq<string> := ["Studio", "Soundtrack", "Remix", "DJ-mix", "Compilation"]
  const DefaultReleaseStatuses: seq<string> := ["Official"]
  const Disabled: string := "Disabled"
  const NoRestrictions: string := "None"

  const InitialState: MusicState := MusicState(None, None, None, None)

  /** JavaScript truthiness of a list: present and non-empty. */
  predicate NonEmpty(list: Option<seq<string>>)
  {
    list.Some? && |list.value| > 0
  }

  /** `value || fallback` for a string that may be null: null and "" are falsy. */
  function OrElse(value: Option<string>, fallback: string): (r: string)
    ensures value.Some? && value.value != "" ==> r == value.value
    ensures value.None? || value.value == "" ==> r == fallback
  {
    if value.Some? && value.value != "" then value.value else fallback
  }

  /** The first non-empty list of the two, else the default. */
  function FirstNonEmpty(list: Option<seq<string>>, fallback: Option<seq<string>>, default: seq<string>): seq<string>
  {
    if NonEmpty(list) then list.value else if NonEmpty(fallback) then fallback.value else default
  }

  /**
   * The category as the reducer stores it: the primary types fall back to
   * the release types and then to the default list; the secondary types
   * and release statuses fall back to their defaults.
   */
  function NormalizeCategory(x: Category): (r: Category)
    ensures NonEmpty(r.primaryTypes) && NonEmpty(r.secondaryTypes) && NonEmpty(r.releaseStatuses)
    ensures r.(primaryTypes := x.primaryTypes, secondaryTypes := x.secondaryTypes,
               releaseStatuses := x.releaseStatuses) == x
    ensures NonEmpty(x.primaryTypes) ==> r.primaryTypes == x.primaryTypes
    ensures !NonEmpty(x.primaryTypes) && NonEmpty(x.releaseTypes) ==> r.primaryTypes == x.releaseTypes
    ensures !NonEmpty(x.primaryTypes) && !NonEmpty(x.releaseTypes) ==> r.primaryTypes == Some(DefaultPrimaryTypes)
    ensures NonEmpty(x.secondaryTypes) ==> r.secondaryTypes == x.secondaryTypes
    ensures !NonEmpty(x.secondaryTypes) ==> r.secondaryTypes == Some(DefaultSecondaryTypes)
    ensures NonEmpty(x.releaseStatuses) ==> r.releaseStatuses == x.releaseStatuses
    ensures !NonEmpty(x.releaseStatuses) ==> r.releaseStatuses == Some(DefaultReleaseStatuses)
  {
    x.(primaryTypes := Some(FirstNonEmpty(x.primaryTypes, x.releaseTypes, DefaultPrimaryTypes)),
       secondaryTypes := Some(FirstNonEmpty(x.secondaryTypes, None, DefaultSecondaryTypes)),
       releaseStatuses := Some(FirstNonEmpty(x.releaseStatuses, None, DefaultReleaseStatuses)))
  }

  /** A category whose three lists are all non-empty is stored unchanged. */
  lemma NormalizeKeepsComplete(x: Category)
    requires NonEmpty(x.primaryTypes) && NonEmpty(x.secondaryTypes) && NonEmpty(x.releaseStatuses)
    ensures NormalizeCategory(x) == x
  {
  }

  /** Normalising a stored category again changes nothing. */
  lemma NormalizeIdempotent(x: Category)
    ensures NormalizeCategory(NormalizeCategory(x)) == NormalizeCategory(x)
  {
    NormalizeKeepsComplete(NormalizeCategory(x));
  }

  /** A list the page has not started loading. */
  predicate Idle<T>(list: ListState<T>)
  {
    !list.isLoading && !list.hasLoaded && !list.isValid && list.items == []
  }

  function IdleList<T>(): (r: ListState<T>)
    ensures Idle(r)
  {
    ListState(false, false, false, [])
  }

  /** The Lidarr state built from the server's settings. */
  function LidarrFromPayload(p: LidarrPayload): (r: LidarrState)
    ensures r.hostname == p.hostname && r.baseUrl == p.baseUrl && r.port == p.port && r.apiKey == p.apiKey
    ensures r.useSSL == p.useSSL && r.version == p.version
    ensures r.searchNewRequests == p.searchNewRequests && r.monitorNewRequests == p.monitorNewRequests
    ensures |r.categories| == |p.categories|
    ensures forall i :: 0 <= i < |p.categories| ==> r.categories[i] == NormalizeCategory(p.categories[i])
    ensures r.categoies.None?
    ensures Idle(r.paths) && Idle(r.profiles) && Idle(r.metadataProfiles) && Idle(r.tags)
  {
    LidarrState(p.hostname, p.baseUrl, p.port, p.apiKey, p.useSSL,
                seq(|p.categories|, i requires 0 <= i < |p.categories| => NormalizeCategory(p.categories[i])),
                None, p.searchNewRequests, p.monitorNewRequests, p.version,
                IdleList(), IdleList(), IdleList(), IdleList())
  }

  /** `MusicClientsReducer`. */
  function Reduce(state: MusicState, action: Action): (r: MusicState)
    ensures action.GetSettings? ==>
      var p := action.payload;
      r.client == Some(p.client) &&
      r.restrictions == Some(OrElse(p.restrictions, NoRestrictions)) &&
      r.lidarr == Some(LidarrFromPayload(p.lidarr)) &&
      r.otherCategories == Some(p.otherCategories)
    ensures action.SetDisabledClient? ==> r == state.(client := Some(Disabled))
    ensures action.OtherAction? ==> r == state
  {
    match action
    case GetSettings(p) =>
      MusicState(Some(p.client), Some(OrElse(p.restrictions, NoRestrictions)), Some(LidarrFromPayload(p.lidarr)),
                 Some(p.otherCategories))
    case SetDisabledClient => state.(client := Some(Disabled))
    case OtherAction(_) => state
  }

  /** After loading the settings the restrictions are never empty: a missing value reads as "None". */
  lemma LoadedRestrictionsPresent(state: MusicState, p: SettingsPayload)
    ensures Reduce(state, GetSettings(p)).restrictions.Some?
    ensures Reduce(state, GetSettings(p)).restrictions.value != ""
    ensures Reduce(state, GetSettings(p)).restrictions.value == NoRestrictions <==>
            p.restrictions.None? || p.restrictions.value == "" || p.restrictions.value == NoRestrictions
  {
  }

  /** Loading the settings forgets every earlier key: the result depends on the payload alone. */
  lemma GetSettingsReplacesState(s1: MusicState, s2: MusicState, p: SettingsPayload)
    ensures Reduce(s1, GetSettings(p)) == Reduce(s2, GetSettings(p))
  {
  }

  /** Every stored category has non-empty type and status lists, and storing is idempotent per category. */
  lemma LoadedCategoriesComplete(state: MusicState, p: SettingsPayload, i: int)
    requires 0 <= i < |p.lidarr.categories|
    ensures var c := Reduce(state, GetSettings(p)).lidarr.value.categories[i];
      c.id == p.lidarr.categories[i].id && c.name == p.lidarr.categories[i].name &&
      NonEmpty(c.primaryTypes) && NonEmpty(c.secondaryTypes) && NonEmpty(c.releaseStatuses) &&
      NormalizeCategory(c) == c
  {
    NormalizeIdempotent(p.lidarr.categories[i]);
  }

  /** Disabling the client twice is disabling it once, and touches no other key. */
  lemma DisableIdempotent(state: MusicState)
    ensures Reduce(Reduce(state, SetDisabledClient), SetDisabledClient) == Reduce(state, SetDisabledClient)
    ensures Reduce(state, SetDisabledClient).lidarr == state.lidarr
    ensures Reduce(state, SetDisabledClient).restrictions == state.restrictions
  {
  }
}
