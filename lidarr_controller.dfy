/**
 * Saving Lidarr settings from the web UI: the category list is validated in
 * a fixed order (present, named, names trimmed in place, names distinct
 * ignoring case, ids distinct, names well formed), the metadata profiles are
 * fetched, the categories are filtered by them in place, and only then are
 * the settings stored.
 */
module LidarrController {
  import opened Wrappers
  import opened Text
  import opened ProfileMapper
  import opened ProfileSync
  import opened Sequences

  // ------------------------------------------------------- counting distinct

  /** The members of a sequence, as a `HashSet` built from it holds them. */
  function Elements<T(==)>(s: seq<T>): set<T>
  {
    set x | x in s
  }

  lemma ElementsCons<T>(s: seq<T>)
    requires s != []
    ensures Elements(s) == {s[0]} + Elements(s[1..])
  {
    assert s == [s[0]] + s[1..];
  }

  lemma DistinctCons<T>(s: seq<T>)
    requires s != []
    ensures Distinct(s) <==> s[0] !in s[1..] && Distinct(s[1..])
  {
    var rest := s[1..];
    if s[0] in rest {
      var j :| 0 <= j < |rest| && rest[j] == s[0];
      assert s[0] == s[j + 1];
    }
    if Distinct(s) {
      forall i, j | 0 <= i < j < |rest|
        ensures rest[i] != rest[j]
      {
        assert rest[i] == s[i + 1] && rest[j] == s[j + 1];
      }
    }
    if s[0] !in rest && Distinct(rest) {
      forall i, j | 0 <= i < j < |s|
        ensures s[i] != s[j]
      {
        assert s[j] == rest[j - 1];
        if i > 0 {
          assert s[i] == rest[i - 1];
        }
      }
    }
  }

  /** A `HashSet` built from a sequence is no larger than it, and as large exactly when it has no repeats. */
  lemma {:induction false} CountDistinct<T>(s: seq<T>)
    ensures |Elements(s)| <= |s|
    ensures |Elements(s)| == |s| <==> Distinct(s)
  {
    if s != [] {
      CountDistinct(s[1..]);
      ElementsCons(s);
      DistinctCons(s);
      if s[0] in s[1..] {
        assert s[0] in Elements(s[1..]);
        assert Elements(s) == Elements(s[1..]);
      } else {
        assert s[0] !in Elements(s[1..]);
      }
    }
  }

  // ------------------------------------------------------------- validation

  /** `\w` on ASCII: a letter, a digit or an underscore. */
  predicate IsWordChar(c: char)
  {
    ('a' <= c <= 'z') || ('A' <= c <= 'Z') || ('0' <= c <= '9') || c == '_'
  }

  /** A name matching `^[\w-]{1,32}$`. */
  predicate ValidName(name: string)
  {
    1 <= |name| <= 32 && forall i :: 0 <= i < |name| ==> IsWordChar(name[i]) || name[i] == '-'
  }

  /** A well-formed name has nothing for `Trim` to remove. */
  lemma ValidNameTrimmed(name: string)
    requires ValidName(name)
    ensures Trim(name) == name && !IsBlank(name)
  {
    assert !IsWhiteSpace(name[0]) && !IsWhiteSpace(name[|name| - 1]);
    assert TrimStart(name) == name;
  }

  /** Why a save is refused, in the order the validations run. */
  datatype Rejection =
    | NoCategories
    | MissingName
    | DuplicateNames
    | DuplicateIds
    | InvalidNames
    | ProfilesUnavailable
    | DuplicateProfileIds
    | InvalidMetadataProfile(categoryName: Option<string>)

  /** The names lower-cased, as the name `HashSet` is built. */
  function NameKeys(categories: seq<SettingsCategory>): (r: seq<string>)
    ensures |r| == |categories|
    ensures forall i :: 0 <= i < |r| ==> r[i] == LowerStr(categories[i].name.GetOr(""))
  {
    seq(|categories|, i requires 0 <= i < |categories| => LowerStr(categories[i].name.GetOr("")))
  }

  function Ids(categories: seq<SettingsCategory>): (r: seq<int>)
    ensures |r| == |categories|
    ensures forall i :: 0 <= i < |r| ==> r[i] == categories[i].id
  {
    seq(|categories|, i requires 0 <= i < |categories| => categories[i].id)
  }

  predicate NamesDistinctIgnoringCase(categories: seq<SettingsCategory>)
  {
    forall i, j :: 0 <= i < j < |categories| ==>
      !EqualsIgnoreCase(categories[i].name.GetOr(""), categories[j].name.GetOr(""))
  }

  predicate IdsDistinct(categories: seq<SettingsCategory>)
  {
    forall i, j :: 0 <= i < j < |categories| ==> categories[i].id != categories[j].id
  }

  predicate AllNamesValid(categories: seq<SettingsCategory>)
  {
    forall i :: 0 <= i < |categories| ==> ValidName(categories[i].name.GetOr(""))
  }

  /**
   * The validations that follow the trimming, by `HashSet` counts and the name
   * pattern: the first that fails names the rejection, and none fails
   * exactly when names are distinct ignoring case, ids are distinct and
   * every name is well formed.
   */
  function CheckTrimmed(categories: seq<SettingsCategory>): (r: Option<Rejection>)
    ensures r.None? <==> NamesDistinctIgnoringCase(categories) && IdsDistinct(categories) && AllNamesValid(categories)
    ensures r == Some(DuplicateNames) <==> !NamesDistinctIgnoringCase(categories)
    ensures r == Some(DuplicateIds) <==> NamesDistinctIgnoringCase(categories) && !IdsDistinct(categories)
  {
    CountDistinct(NameKeys(categories));
    CountDistinct(Ids(categories));
    if |Elements(NameKeys(categories))| != |categories| then Some(DuplicateNames)
    else if |Elements(Ids(categories))| != |categories| then Some(DuplicateIds)
    else if exists i :: 0 <= i < |categories| && !ValidName(categories[i].name.GetOr("")) then Some(InvalidNames)
    else None
  }

  // ------------------------------------------------------------- settings

  /** The connection part of a settings model, as the test endpoints receive it. */
  datatype TestSettings = TestSettings(hostname: Option<string>, port: int, apiKey: Option<string>,
                                       baseUrl: Option<string>, useSsl: bool, version: Option<string>)

  /**
   * `ConvertToLidarrSettings`; `None` is the exception `Trim` throws on a
   * null host name, API key or base URL. The other settings keep their
   * defaults: no categories, no searching or monitoring, bulk album requests
   * allowed.
   */
  function ConvertToLidarrSettings(model: TestSettings): (r: Option<LidarrSettings>)
    ensures r.Some? <==> model.hostname.Some? && model.apiKey.Some? && model.baseUrl.Some?
    ensures r.Some? ==>
              r.value.hostname == Some(Trim(model.hostname.value)) && r.value.apiKey == Some(Trim(model.apiKey.value)) &&
              r.value.baseUrl == Some(Trim(model.baseUrl.value)) && r.value.port == model.port &&
              r.value.useSsl == model.useSsl && r.value.version == model.version &&
              r.value.categories == Some([]) && !r.value.searchNewRequests && !r.value.monitorNewRequests &&
              r.value.allowBulkAlbumRequests
  {
    if model.hostname.None? || model.apiKey.None? || model.baseUrl.None? then None
    else
      Some(LidarrSettings(Some(Trim(model.hostname.value)), model.port, Some(Trim(model.apiKey.value)),
                          Some(Trim(model.baseUrl.value)), Some([]), false, false, true, model.useSsl, model.version))
  }

  /** The connection fields of converted settings, to convert again. */
  function AsTestSettings(s: LidarrSettings): TestSettings
  {
    TestSettings(s.hostname, s.port, s.apiKey, s.baseUrl, s.useSsl, s.version)
  }

  /** Converting converted settings again changes nothing. */
  lemma ConvertIdempotent(model: TestSettings)
    requires ConvertToLidarrSettings(model).Some?
    ensures ConvertToLidarrSettings(AsTestSettings(ConvertToLidarrSettings(model).value)) == ConvertToLidarrSettings(model)
  {
    TrimIdempotent(model.hostname.value);
    TrimIdempotent(model.apiKey.value);
    TrimIdempotent(model.baseUrl.value);
  }

  /** Converted settings count as configured exactly when the untrimmed input would. */
  lemma ConvertedConfigured(model: TestSettings)
    requires ConvertToLidarrSettings(model).Some?
    ensures IsLidarrConfigured(ConvertToLidarrSettings(model)) <==>
              !IsBlank(model.hostname.value) && !IsBlank(model.apiKey.value) && !NullOrBlank(model.version) &&
              model.port > 0
  {
    TrimBlank(model.hostname.value);
    TrimBlank(model.apiKey.value);
    var h := Trim(model.hostname.value);
    var k := Trim(model.apiKey.value);
    assert IsBlank(h) <==> h == [] by {
      if h != [] { assert !IsWhiteSpace(h[0]); }
    }
    assert IsBlank(k) <==> k == [] by {
      if k != [] { assert !IsWhiteSpace(k[0]); }
    }
  }

  /** The model `SaveAsync` receives; the categories come as a separate array. */
  datatype SaveModel = SaveModel(connection: TestSettings, searchNewRequests: bool, monitorNewRequests: bool,
                                 allowBulkAlbumRequests: bool, restrictions: Option<string>)

  /** The music settings written beside the Lidarr settings. */
  datatype MusicSettings = MusicSettings(client: string, restrictions: string)

  datatype SaveResult = BadRequest(reason: Rejection) | Saved(music: MusicSettings, settings: SettingsModel)

  /** A blank restriction is stored as the no-restriction value. */
  function StoredRestrictions(restrictions: Option<string>, noRestrictions: string): (r: string)
    ensures NullOrBlank(restrictions) ==> r == noRestrictions
    ensures !NullOrBlank(restrictions) ==> r == restrictions.value
  {
    if NullOrBlank(restrictions) then noRestrictions else restrictions.value
  }

  predicate AllNamed(categories: seq<SettingsCategory>)
  {
    forall i :: 0 <= i < |categories| ==> !NullOrBlank(categories[i].name)
  }

  /** A category with its name trimmed. */
  function TrimName(c: SettingsCategory): SettingsCategory
  {
    match c.name
    case None => c
    case Some(name) => c.(name := Some(Trim(name)))
  }

  /** The `foreach` that trims every category name in place. */
  method TrimNames(categories: array<SettingsCategory>)
    requires forall i :: 0 <= i < categories.Length ==> categories[i].name.Some?
    modifies categories
    ensures forall i :: 0 <= i < categories.Length ==> categories[i] == TrimName(old(categories[i]))
  {
    ghost var before := categories[..];
    var i := 0;
    while i < categories.Length
      invariant 0 <= i <= categories.Length
      invariant forall j :: 0 <= j < i ==> categories[j] == TrimName(before[j])
      invariant forall j :: i <= j < categories.Length ==> categories[j] == before[j]
    {
      categories[i] := TrimName(categories[i]);
      i := i + 1;
    }
  }

  /** Trimming keeps every name non-blank. */
  lemma TrimmedStillNamed(before: seq<SettingsCategory>, after: seq<SettingsCategory>)
    requires AllNamed(before) && |after| == |before|
    requires forall i :: 0 <= i < |before| ==> after[i] == TrimName(before[i])
    ensures AllNamed(after)
  {
    forall i | 0 <= i < |before|
      ensures !NullOrBlank(after[i].name)
    {
      TrimBlank(before[i].name.value);
      var t := Trim(before[i].name.value);
      assert t != [] && !IsWhiteSpace(t[0]);
    }
  }

  /**
   * `SaveAsync`. The name of the Lidarr client, the no-restriction value and
   * the fetched metadata profiles (`None` when the request throws) are
   * parameters. Nothing is touched before the names are checked present;
   * names are trimmed before the other checks; the categories are filtered
   * only when every check passes; and the saved settings hold the trimmed
   * connection fields and the filtered categories.
   */
  method SaveAsync(model: SaveModel, categories: array<SettingsCategory>, lidarrName: string, noRestrictions: string,
                   profiles: Option<seq<MetadataProfile>>)
    returns (result: SaveResult)
    modifies categories
    ensures categories.Length == 0 ==> result == BadRequest(NoCategories)
    ensures categories.Length > 0 && !AllNamed(old(categories[..])) ==>
              result == BadRequest(MissingName) && categories[..] == old(categories[..])
    ensures categories.Length > 0 && AllNamed(old(categories[..])) ==>
              var trimmed := seq(categories.Length, i requires 0 <= i < categories.Length => TrimName(old(categories[i])));
              (CheckTrimmed(trimmed).Some? ==> result == BadRequest(CheckTrimmed(trimmed).value) && categories[..] == trimmed) &&
              (CheckTrimmed(trimmed).None? && (ConvertToLidarrSettings(model.connection).None? || profiles.None?) ==>
                 result == BadRequest(ProfilesUnavailable) && categories[..] == trimmed) &&
              (CheckTrimmed(trimmed).None? && ConvertToLidarrSettings(model.connection).Some? && profiles.Some? ==>
                 (!DistinctIds(profiles.value) ==> result == BadRequest(DuplicateProfileIds)) &&
                 (DistinctIds(profiles.value) && FirstUnmatched(trimmed, profiles.value) < |trimmed| ==>
                    result == BadRequest(InvalidMetadataProfile(trimmed[FirstUnmatched(trimmed, profiles.value)].name))) &&
                 (DistinctIds(profiles.value) && FirstUnmatched(trimmed, profiles.value) == |trimmed| ==>
                    result.Saved? &&
                    (forall i :: 0 <= i < categories.Length ==> FilteredFrom(categories[i], trimmed[i], profiles.value))))
    ensures result.Saved? ==>
              var connection := ConvertToLidarrSettings(model.connection);
              connection.Some? &&
              result.music == MusicSettings(lidarrName, StoredRestrictions(model.restrictions, noRestrictions)) &&
              result.settings == SettingsModel(connection.value.hostname, connection.value.port, connection.value.apiKey,
                                               connection.value.baseUrl, connection.value.useSsl, connection.value.version,
                                               model.searchNewRequests, model.monitorNewRequests,
                                               model.allowBulkAlbumRequests, None, categories[..])
  {
    var music := MusicSettings(lidarrName, StoredRestrictions(model.restrictions, noRestrictions));
    if categories.Length == 0 {
      return BadRequest(NoCategories);
    }
    if exists i :: 0 <= i < categories.Length && NullOrBlank(categories[i].name) {
      return BadRequest(MissingName);
    }
    ghost var before := categories[..];
    TrimNames(categories);
    ghost var trimmed := seq(categories.Length, i requires 0 <= i < categories.Length => TrimName(old(categories[i])));
    assert categories[..] == trimmed;
    var rejection := CheckTrimmed(categories[..]);
    if rejection.Some? {
      return BadRequest(rejection.value);
    }
    result := FetchAndFilter(model, categories, music, profiles);
  }

  /**
   * The part of `SaveAsync` after validation: convert the connection
   * settings, filter the categories by the fetched profiles, and build the
   * settings to store.
   */
  method FetchAndFilter(model: SaveModel, categories: array<SettingsCategory>, music: MusicSettings,
                        profiles: Option<seq<MetadataProfile>>)
    returns (result: SaveResult)
    modifies categories
    ensures ConvertToLidarrSettings(model.connection).None? || profiles.None? ==>
              result == BadRequest(ProfilesUnavailable) && categories[..] == old(categories[..])
    ensures ConvertToLidarrSettings(model.connection).Some? && profiles.Some? ==>
              var named := old(categories[..]);
              var k := FirstUnmatched(named, profiles.value);
              (!DistinctIds(profiles.value) ==> result == BadRequest(DuplicateProfileIds)) &&
              (DistinctIds(profiles.value) && k < |named| ==> result == BadRequest(InvalidMetadataProfile(named[k].name))) &&
              (DistinctIds(profiles.value) && k == |named| ==>
                 result.Saved? && forall i :: 0 <= i < categories.Length ==> FilteredFrom(categories[i], named[i], profiles.value))
    ensures result.Saved? ==>
              var connection := ConvertToLidarrSettings(model.connection);
              connection.Some? && result.music == music &&
              result.settings == SettingsModel(connection.value.hostname, connection.value.port, connection.value.apiKey,
                                               connection.value.baseUrl, connection.value.useSsl, connection.value.version,
                                               model.searchNewRequests, model.monitorNewRequests,
                                               model.allowBulkAlbumRequests, None, categories[..])
  {
    var connection := ConvertToLidarrSettings(model.connection);
    if connection.None? || profiles.None? {
      return BadRequest(ProfilesUnavailable);
    }
    var failure := FilterInPlace(categories, profiles.value);
    if failure.Some? {
      return BadRequest(failure.value);
    }
    var settings := SettingsModel(connection.value.hostname, connection.value.port, connection.value.apiKey,
                                  connection.value.baseUrl, connection.value.useSsl, connection.value.version,
                                  model.searchNewRequests, model.monitorNewRequests, model.allowBulkAlbumRequests,
                                  None, categories[..]);
    return Saved(music, settings);
  }

  /** `ApplyProfileFiltersToCategories` with its exception turned into the rejection it reports. */
  method FilterInPlace(categories: array<SettingsCategory>, profiles: seq<MetadataProfile>)
    returns (failure: Option<Rejection>)
    modifies categories
    ensures var named := old(categories[..]);
            var k := FirstUnmatched(named, profiles);
            (!DistinctIds(profiles) ==> failure == Some(DuplicateProfileIds)) &&
            (DistinctIds(profiles) && k < |named| ==> failure == Some(InvalidMetadataProfile(named[k].name))) &&
            (DistinctIds(profiles) && k == |named| ==>
               failure.None? && forall i :: 0 <= i < categories.Length ==> FilteredFrom(categories[i], named[i], profiles))
  {
    var named := categories[..];
    var ok := ApplyProfileFilters(categories, profiles);
    if ok {
      return None;
    }
    if !DistinctIds(profiles) {
      return Some(DuplicateProfileIds);
    }
    var k := FirstUnmatched(named, profiles);
    return Some(InvalidMetadataProfile(categories[k].name));
  }

  /** A saved category name passed the pattern, so it is already trimmed and not blank. */
  lemma SavedNamesClean(categories: seq<SettingsCategory>, i: nat)
    requires i < |categories| && AllNamesValid(categories)
    ensures categories[i].name.Some?
    ensures Trim(categories[i].name.GetOr("")) == categories[i].name.GetOr("")
    ensures !IsBlank(categories[i].name.GetOr(""))
  {
    ValidNameTrimmed(categories[i].name.GetOr(""));
  }
}
