/**
 * The start-up refresh of Lidarr category filters: when Lidarr is the music
 * client and is configured, the stored categories are converted to the
 * settings model, re-filtered from Lidarr's metadata profiles, and written
 * back only when some filter set actually changed.
 */
module ProfileSync {
  import opened Wrappers
  import opened Text
  import opened ProfileMapper

  /** A category as stored in the settings file; any list may be null (`None`). */
  datatype LidarrCategory = LidarrCategory(id: int, name: Option<string>, profileId: int, metadataProfileId: int,
                                           rootFolder: Option<string>, tags: Option<seq<int>>,
                                           releaseTypes: Option<seq<string>>, primaryTypes: Option<seq<string>>,
                                           secondaryTypes: Option<seq<string>>, releaseStatuses: Option<seq<string>>)

  /** The stored Lidarr settings. */
  datatype LidarrSettings = LidarrSettings(hostname: Option<string>, port: int, apiKey: Option<string>,
                                           baseUrl: Option<string>, categories: Option<seq<LidarrCategory>>,
                                           searchNewRequests: bool, monitorNewRequests: bool,
                                           allowBulkAlbumRequests: bool, useSsl: bool, version: Option<string>)

  /** The settings model the repository writes; `Restrictions` is left unset (`None`) by the conversion. */
  datatype SettingsModel = SettingsModel(hostname: Option<string>, port: int, apiKey: Option<string>,
                                         baseUrl: Option<string>, useSsl: bool, version: Option<string>,
                                         searchNewRequests: bool, monitorNewRequests: bool,
                                         allowBulkAlbumRequests: bool, restrictions: Option<string>,
                                         categories: seq<SettingsCategory>)

  /** `string.IsNullOrWhiteSpace`. */
  predicate NullOrBlank(s: Option<string>)
  {
    s.None? || IsBlank(s.value)
  }

  /** `IsLidarrConfigured`. */
  predicate IsLidarrConfigured(settings: Option<LidarrSettings>)
  {
    settings.Some? && !NullOrBlank(settings.value.hostname) && !NullOrBlank(settings.value.apiKey) &&
    !NullOrBlank(settings.value.version) && settings.value.port > 0
  }

  // ------------------------------------------------------------ conversion

  /** Every list of the category is present. */
  predicate ListsPresent(c: LidarrCategory)
  {
    c.tags.Some? && c.releaseTypes.Some? && c.primaryTypes.Some? && c.secondaryTypes.Some? &&
    c.releaseStatuses.Some?
  }

  /** A model category as the settings file stores it: every list present. */
  function Stored(m: SettingsCategory): (r: LidarrCategory)
    ensures ListsPresent(r)
  {
    LidarrCategory(m.id, m.name, m.profileId, m.metadataProfileId, m.rootFolder, Some(m.tags), Some(m.releaseTypes),
                   Some(m.primaryTypes), Some(m.secondaryTypes), Some(m.releaseStatuses))
  }

  /**
   * One category of `ConvertToModel`: a null list becomes empty, everything
   * else is copied, so a category whose lists are all present survives the
   * round trip through the settings file unchanged.
   */
  function ConvertCategory(c: LidarrCategory): (r: SettingsCategory)
    ensures ListsPresent(c) ==> Stored(r) == c
    ensures r.id == c.id && r.name == c.name && r.profileId == c.profileId
    ensures r.metadataProfileId == c.metadataProfileId && r.rootFolder == c.rootFolder
    ensures c.tags.None? ==> r.tags == []
    ensures c.releaseTypes.None? ==> r.releaseTypes == []
    ensures c.primaryTypes.None? ==> r.primaryTypes == []
    ensures c.secondaryTypes.None? ==> r.secondaryTypes == []
    ensures c.releaseStatuses.None? ==> r.releaseStatuses == []
  {
    SettingsCategory(c.id, c.name, c.profileId, c.metadataProfileId, c.rootFolder, c.tags.GetOr([]),
                     c.releaseTypes.GetOr([]), c.primaryTypes.GetOr([]), c.secondaryTypes.GetOr([]),
                     c.releaseStatuses.GetOr([]))
  }

  /** Storing a model category and converting it back gives it back. */
  lemma ConvertStored(m: SettingsCategory)
    ensures ConvertCategory(Stored(m)) == m
  {
  }

  /** `ConvertToModel`: a null category list becomes empty, and every category and setting is carried over. */
  function ConvertToModel(settings: LidarrSettings): (r: SettingsModel)
    ensures |r.categories| == |settings.categories.GetOr([])|
    ensures forall i :: 0 <= i < |r.categories| ==> r.categories[i] == ConvertCategory(settings.categories.GetOr([])[i])
    ensures r.hostname == settings.hostname && r.port == settings.port && r.apiKey == settings.apiKey
    ensures r.baseUrl == settings.baseUrl && r.useSsl == settings.useSsl && r.version == settings.version
    ensures r.searchNewRequests == settings.searchNewRequests && r.monitorNewRequests == settings.monitorNewRequests
    ensures r.allowBulkAlbumRequests == settings.allowBulkAlbumRequests
    ensures r.restrictions.None?
  {
    var categories := settings.categories.GetOr([]);
    SettingsModel(settings.hostname, settings.port, settings.apiKey, settings.baseUrl, settings.useSsl,
                  settings.version, settings.searchNewRequests, settings.monitorNewRequests,
                  settings.allowBulkAlbumRequests, None,
                  seq(|categories|, i requires 0 <= i < |categories| => ConvertCategory(categories[i])))
  }

  // ------------------------------------------------------------- set equality

  /** The keys of the non-blank values of a list. */
  function KeysBy(values: seq<string>, key: string -> string): set<string>
  {
    set x | x in values && !IsBlank(x) :: key(x)
  }

  /** The key a value is compared by: trimmed and lower-cased. */
  function Key(x: string): string
  {
    LowerStr(Trim(x))
  }

  /** The case-insensitive set of the trimmed, non-blank values of a list; null is empty. */
  function FilterKeys(values: Option<seq<string>>): set<string>
  {
    KeysBy(values.GetOr([]), Key)
  }

  /** Every non-blank value of `a` has a non-blank value in `b` with the same key. */
  predicate Covered(a: seq<string>, b: seq<string>)
  {
    forall x :: x in a && !IsBlank(x) ==> exists y :: y in b && !IsBlank(y) && Key(y) == Key(x)
  }

  /**
   * `SetEquals`: the two lists, null read as empty, hold the same non-blank
   * values up to case and surrounding blanks.
   */
  function SetEquals(oldValues: Option<seq<string>>, newValues: Option<seq<string>>): (r: bool)
    ensures r <==> Covered(oldValues.GetOr([]), newValues.GetOr([])) && Covered(newValues.GetOr([]), oldValues.GetOr([]))
  {
    var a, b := oldValues.GetOr([]), newValues.GetOr([]);
    CoveredKeys(a, b);
    CoveredKeys(b, a);
    FilterKeys(oldValues) == FilterKeys(newValues)
  }

  /** `Covered` is inclusion of the key sets. */
  lemma CoveredKeys(a: seq<string>, b: seq<string>)
    ensures Covered(a, b) <==> KeysBy(a, Key) <= KeysBy(b, Key)
  {
    if Covered(a, b) {
      forall k | k in KeysBy(a, Key)
        ensures k in KeysBy(b, Key)
      {
        var x :| x in a && !IsBlank(x) && k == Key(x);
        var y :| y in b && !IsBlank(y) && Key(y) == Key(x);
      }
    }
    if KeysBy(a, Key) <= KeysBy(b, Key) {
      forall x | x in a && !IsBlank(x)
        ensures exists y :: y in b && !IsBlank(y) && Key(y) == Key(x)
      {
        assert Key(x) in KeysBy(a, Key);
        var y :| y in b && !IsBlank(y) && Key(x) == Key(y);
      }
    }
  }

  /** A null list is equal to an empty one and to one of blanks only. */
  lemma SetEqualsNullBlank(blanks: seq<string>)
    requires forall i :: 0 <= i < |blanks| ==> IsBlank(blanks[i])
    ensures SetEquals(None, Some(blanks))
  {
    assert forall x :: x in blanks ==> IsBlank(x);
  }

  /** Lists with the same elements have the same keys. */
  lemma KeysBySameElements(a: seq<string>, b: seq<string>, key: string -> string)
    requires forall x :: x in a <==> x in b
    ensures KeysBy(a, key) == KeysBy(b, key)
  {
    assert forall k :: k in KeysBy(a, key) ==> k in KeysBy(b, key) by {
      forall k | k in KeysBy(a, key)
        ensures k in KeysBy(b, key)
      {
        var x :| x in a && !IsBlank(x) && k == key(x);
        assert x in b;
      }
    }
    assert forall k :: k in KeysBy(b, key) ==> k in KeysBy(a, key) by {
      forall k | k in KeysBy(b, key)
        ensures k in KeysBy(a, key)
      {
        var x :| x in b && !IsBlank(x) && k == key(x);
        assert x in a;
      }
    }
  }

  /** Order and repetition do not matter: a reordered list is set-equal to the original. */
  lemma SetEqualsPermutation(a: seq<string>, b: seq<string>)
    requires multiset(a) == multiset(b)
    ensures SetEquals(Some(a), Some(b))
  {
    forall x
      ensures x in a <==> x in b
    {
      assert x in a <==> x in multiset(a);
      assert x in b <==> x in multiset(b);
    }
    KeysBySameElements(a, b, Key);
  }

  /** Repeating a value does not change the set. */
  lemma SetEqualsRepeat(a: seq<string>, i: nat)
    requires i < |a|
    ensures SetEquals(Some(a), Some(a + [a[i]]))
  {
    KeysBySameElements(a, a + [a[i]], Key);
  }

  /** Appending a non-blank value adds its key. */
  lemma KeysBySnoc(a: seq<string>, x: string, key: string -> string)
    requires !IsBlank(x)
    ensures KeysBy(a + [x], key) == KeysBy(a, key) + {key(x)}
  {
    assert KeysBy(a + [x], key) <= KeysBy(a, key) + {key(x)} by {
      forall k | k in KeysBy(a + [x], key)
        ensures k in KeysBy(a, key) + {key(x)}
      {
        var z :| z in a + [x] && !IsBlank(z) && k == key(z);
        assert z in a || z == x;
      }
    }
    assert key(x) in KeysBy(a + [x], key) by {
      assert x in a + [x];
    }
    assert KeysBy(a, key) <= KeysBy(a + [x], key) by {
      forall k | k in KeysBy(a, key)
        ensures k in KeysBy(a + [x], key)
      {
        var z :| z in a && !IsBlank(z) && k == key(z);
        assert z in a + [x];
      }
    }
  }

  /** Values that differ only by case and surrounding white space are the same set member. */
  lemma SetEqualsCaseAndSpace(a: seq<string>, x: string, y: string)
    requires !IsBlank(x) && !IsBlank(y) && EqualsIgnoreCase(Trim(x), Trim(y))
    ensures SetEquals(Some(a + [x]), Some(a + [y]))
  {
    KeysBySnoc(a, x, Key);
    KeysBySnoc(a, y, Key);
  }

  // ---------------------------------------------------------- filter changes

  predicate DistinctCategoryIds(categories: seq<LidarrCategory>)
  {
    forall i, j :: 0 <= i < j < |categories| ==> categories[i].id != categories[j].id
  }

  /** `TryGetValue` on the old categories by id. */
  function OldById(categories: seq<LidarrCategory>, id: int): (r: Option<LidarrCategory>)
    ensures r.Some? ==> r.value in categories && r.value.id == id
    ensures r.None? <==> forall i :: 0 <= i < |categories| ==> categories[i].id != id
  {
    if categories == [] then None
    else if categories[0].id == id then Some(categories[0])
    else
      var r := OldById(categories[1..], id);
      assert forall i :: 1 <= i < |categories| ==> categories[i] == categories[1..][i - 1];
      r
  }

  /** With distinct ids, looking up a category's id finds that category. */
  lemma {:induction false} OldByIdFinds(categories: seq<LidarrCategory>, i: nat)
    requires DistinctCategoryIds(categories) && i < |categories|
    ensures OldById(categories, categories[i].id) == Some(categories[i])
  {
    if i > 0 {
      assert categories[0].id != categories[i].id;
      assert DistinctCategoryIds(categories[1..]) by {
        forall a, b | 0 <= a < b < |categories[1..]|
          ensures categories[1..][a].id != categories[1..][b].id
        {
          assert categories[1..][a] == categories[a + 1] && categories[1..][b] == categories[b + 1];
        }
      }
      assert categories[1..][i - 1] == categories[i];
      OldByIdFinds(categories[1..], i - 1);
    }
  }

  /** The new category has no old counterpart, or one of its three filter sets differs from it. */
  function FiltersChanged(oldCategories: seq<LidarrCategory>, category: SettingsCategory): (r: bool)
    ensures OldById(oldCategories, category.id).None? ==> r
    ensures !r ==> var before := OldById(oldCategories, category.id).value;
              FilterKeys(before.primaryTypes) == FilterKeys(Some(category.primaryTypes))
              && FilterKeys(before.secondaryTypes) == FilterKeys(Some(category.secondaryTypes))
              && FilterKeys(before.releaseStatuses) == FilterKeys(Some(category.releaseStatuses))
  {
    var before := OldById(oldCategories, category.id);
    before.None? ||
    !SetEquals(before.value.primaryTypes, Some(category.primaryTypes)) ||
    !SetEquals(before.value.secondaryTypes, Some(category.secondaryTypes)) ||
    !SetEquals(before.value.releaseStatuses, Some(category.releaseStatuses))
  }

  /** The `foreach` of `HasFilterChanges`, which returns at the first changed category. */
  function AnyFiltersChanged(oldCategories: seq<LidarrCategory>, newCategories: seq<SettingsCategory>): (r: bool)
    ensures r <==> exists i :: 0 <= i < |newCategories| && FiltersChanged(oldCategories, newCategories[i])
  {
    if newCategories == [] then false
    else if FiltersChanged(oldCategories, newCategories[0]) then true
    else
      var r := AnyFiltersChanged(oldCategories, newCategories[1..]);
      assert forall i :: 1 <= i < |newCategories| ==> newCategories[i] == newCategories[1..][i - 1];
      r
  }

  /**
   * `HasFilterChanges`; `None` is the exception `ToDictionary` throws when
   * two old categories share an id. Extra old categories, names, tags and
   * release types play no part.
   */
  function HasFilterChanges(oldCategories: Option<seq<LidarrCategory>>, newCategories: seq<SettingsCategory>)
    : (r: Option<bool>)
    ensures r.None? <==> !DistinctCategoryIds(oldCategories.GetOr([]))
    ensures r.Some? ==>
              (r.value <==> exists i :: 0 <= i < |newCategories| && FiltersChanged(oldCategories.GetOr([]), newCategories[i]))
  {
    var stored := oldCategories.GetOr([]);
    if !DistinctCategoryIds(stored) then None else Some(AnyFiltersChanged(stored, newCategories))
  }

  /** A converted category has the same filter sets as the stored one it came from. */
  lemma ConvertedCategoryUnchanged(stored: seq<LidarrCategory>, i: nat)
    requires DistinctCategoryIds(stored) && i < |stored|
    ensures !FiltersChanged(stored, ConvertCategory(stored[i]))
  {
    OldByIdFinds(stored, i);
  }

  /** Converting the stored settings, without filtering, never counts as a change. */
  lemma ConvertedUnchanged(settings: LidarrSettings)
    requires DistinctCategoryIds(settings.categories.GetOr([]))
    ensures HasFilterChanges(settings.categories, ConvertToModel(settings).categories) == Some(false)
  {
    var stored := settings.categories.GetOr([]);
    var model := ConvertToModel(settings).categories;
    forall i | 0 <= i < |model|
      ensures !FiltersChanged(stored, model[i])
    {
      ConvertedCategoryUnchanged(stored, i);
    }
  }

  /** A change in a category's tags or legacy release types alone is not a filter change. */
  lemma {:induction false} TagsAndReleaseTypesIgnored(oldCategories: seq<LidarrCategory>,
                                                      newCategories: seq<SettingsCategory>, i: nat,
                                                      tags: seq<int>, releaseTypes: seq<string>)
    requires i < |newCategories|
    ensures AnyFiltersChanged(oldCategories, newCategories[i := newCategories[i].(tags := tags, releaseTypes := releaseTypes)])
            == AnyFiltersChanged(oldCategories, newCategories)
  {
    var changed := newCategories[i := newCategories[i].(tags := tags, releaseTypes := releaseTypes)];
    assert forall j :: 0 <= j < |changed| ==> FiltersChanged(oldCategories, changed[j]) == FiltersChanged(oldCategories, newCategories[j]);
  }

  // ------------------------------------------------------------------ the sync

  /** What a start-up sync ends in; `Failed` is an exception caught and logged, `Written` the saved model. */
  datatype SyncOutcome = Skipped | Failed | Unchanged | Written(model: SettingsModel)

  /** The guards before any request: Lidarr is the music client, it is configured, and it has categories. */
  predicate Eligible(client: Option<string>, lidarrName: string, settings: Option<LidarrSettings>)
  {
    client.Some? && EqualsIgnoreCase(client.value, lidarrName) && IsLidarrConfigured(settings) &&
    settings.value.categories.Some? && |settings.value.categories.value| > 0
  }

  /** The categories filtered by their profiles, when every profile exists. */
  function FilteredCategories(categories: seq<SettingsCategory>, profiles: seq<MetadataProfile>)
    : (r: seq<SettingsCategory>)
    requires FirstUnmatched(categories, profiles) == |categories|
    ensures |r| == |categories|
    ensures forall i :: 0 <= i < |r| ==> FilteredFrom(r[i], categories[i], profiles)
  {
    seq(|categories|, i requires 0 <= i < |categories| =>
      Filtered(categories[i], ProfileById(profiles, categories[i].metadataProfileId).value))
  }

  /** Nothing stands in the way of writing: the profiles were fetched, are unambiguous and cover every category. */
  predicate CanApply(settings: LidarrSettings, profiles: Option<seq<MetadataProfile>>)
  {
    profiles.Some? && DistinctIds(profiles.value) &&
    FirstUnmatched(ConvertToModel(settings).categories, profiles.value) == |ConvertToModel(settings).categories| &&
    DistinctCategoryIds(settings.categories.GetOr([]))
  }

  /**
   * `SyncMetadataProfileFiltersAsync`. The name of the Lidarr client and the
   * fetched metadata profiles (`None` when the request throws) are
   * parameters. The sync is skipped exactly when a guard fails, fails exactly
   * when the fetch, the mapper or the comparison throws, and writes exactly
   * when the filtered model differs from the stored filters.
   */
  method Sync(client: Option<string>, lidarrName: string, settings: Option<LidarrSettings>,
              profiles: Option<seq<MetadataProfile>>)
    returns (outcome: SyncOutcome)
    ensures outcome.Skipped? <==> !Eligible(client, lidarrName, settings)
    ensures Eligible(client, lidarrName, settings) ==> (outcome.Failed? <==> !CanApply(settings.value, profiles))
    ensures Eligible(client, lidarrName, settings) && CanApply(settings.value, profiles) ==>
              var filtered := FilteredCategories(ConvertToModel(settings.value).categories, profiles.value);
              (outcome.Written? <==> AnyFiltersChanged(settings.value.categories.value, filtered)) &&
              (outcome.Written? ==> outcome.model == ConvertToModel(settings.value).(categories := filtered))
  {
    if client.None? || !EqualsIgnoreCase(client.value, lidarrName) {
      return Skipped;
    }
    if !IsLidarrConfigured(settings) {
      return Skipped;
    }
    var current := settings.value;
    if current.categories.None? || |current.categories.value| == 0 {
      return Skipped;
    }
    if profiles.None? {
      return Failed;
    }
    outcome := Refresh(current, profiles.value);
  }

  /** The part of `Sync` after the profiles are fetched: filter the converted categories and compare. */
  method Refresh(current: LidarrSettings, profiles: seq<MetadataProfile>) returns (outcome: SyncOutcome)
    ensures !outcome.Skipped?
    ensures outcome.Failed? <==> !CanApply(current, Some(profiles))
    ensures CanApply(current, Some(profiles)) ==>
              var filtered := FilteredCategories(ConvertToModel(current).categories, profiles);
              (outcome.Written? <==> AnyFiltersChanged(current.categories.GetOr([]), filtered)) &&
              (outcome.Written? ==> outcome.model == ConvertToModel(current).(categories := filtered))
  {
    var model := ConvertToModel(current);
    var ok, filtered := FilterCategories(model.categories, profiles);
    if !ok {
      return Failed;
    }
    FilteredCategoriesUnique(filtered, model.categories, profiles);
    var updated := model.(categories := filtered);
    var changes := HasFilterChanges(current.categories, updated.categories);
    if changes.None? {
      return Failed;
    }
    if !changes.value {
      return Unchanged;
    }
    return Written(updated);
  }

  /** The filtered categories are the only ones each filtered from its counterpart. */
  lemma FilteredCategoriesUnique(filtered: seq<SettingsCategory>, categories: seq<SettingsCategory>,
                                 profiles: seq<MetadataProfile>)
    requires FirstUnmatched(categories, profiles) == |categories| && |filtered| == |categories|
    requires forall i :: 0 <= i < |filtered| ==> FilteredFrom(filtered[i], categories[i], profiles)
    ensures filtered == FilteredCategories(categories, profiles)
  {
  }

  /** Copies the categories into an array and applies the profile filters to it, as `Sync` does. */
  method FilterCategories(categories: seq<SettingsCategory>, profiles: seq<MetadataProfile>)
    returns (ok: bool, filtered: seq<SettingsCategory>)
    ensures ok <==> DistinctIds(profiles) && FirstUnmatched(categories, profiles) == |categories|
    ensures ok ==> |filtered| == |categories| &&
                   forall i :: 0 <= i < |filtered| ==> FilteredFrom(filtered[i], categories[i], profiles)
  {
    var a := new SettingsCategory[|categories|](i requires 0 <= i < |categories| => categories[i]);
    assert a[..] == categories;
    ok := ApplyProfileFilters(a, profiles);
    filtered := a[..];
  }
}
