/**
 * How the filters of Lidarr categories are taken from Lidarr metadata
 * profiles: each category is rewritten, in place, with the normalised
 * primary types, secondary types and release statuses of the profile it
 * names.
 */
module ProfileMapper {
  import opened Wrappers
  import opened Text
  import opened Sequences

  /** A category of the Lidarr settings model; the filter lists are never null once converted. */
  datatype SettingsCategory = SettingsCategory(id: int, name: Option<string>, profileId: int, metadataProfileId: int,
                                               rootFolder: Option<string>, tags: seq<int>, releaseTypes: seq<string>,
                                               primaryTypes: seq<string>, secondaryTypes: seq<string>,
                                               releaseStatuses: seq<string>)

  /** A Lidarr metadata profile as Lidarr sends it; a JSON null list is `None`. */
  datatype MetadataProfile = MetadataProfile(id: int, name: Option<string>, primaryTypes: Option<seq<string>>,
                                             secondaryTypes: Option<seq<string>>, releaseStatuses: Option<seq<string>>)

  /** The three filter lists a profile carries. */
  datatype FilterList = PrimaryTypeList | SecondaryTypeList | ReleaseStatusList

  /**
   * The allowed values of each list, by their lower-case key: the sets are
   * compared ignoring case, so a value is allowed when its key is here.
   */
  function AllowedKeys(list: FilterList): set<string>
  {
    match list
    case PrimaryTypeList => {"album", "broadcast", "ep", "other", "single"}
    case SecondaryTypeList => {"studio", "spokenword", "soundtrack", "remix", "mixtape/street", "live", "interview",
                               "dj-mix", "demo", "compilation", "audio drama"}
    case ReleaseStatusList => {"pseudo-release", "promotion", "official", "bootleg"}
  }

  predicate Allowed(list: FilterList, v: string)
  {
    LowerStr(v) in AllowedKeys(list)
  }

  /** A non-blank string trims to a non-blank string that trimming leaves alone. */
  lemma {:induction false} TrimmedNotBlank(value: string)
    requires !IsBlank(value)
    ensures !IsBlank(Trim(value)) && Trim(Trim(value)) == Trim(value)
  {
    TrimBlank(value);
    TrimIdempotent(value);
    assert Trim(value)[0] in Trim(value);
  }

  /**
   * The aliases of `NormalizeSecondaryTypeValue`, on the lower-case key of
   * the trimmed value: DJ-Mix and DJMix, SpokenWord, AudioDrama,
   * MixtapeStreet and SoundTrack, each compared ignoring case.
   */
  function SecondaryAlias(key: string): Option<string>
  {
    if key == "dj-mix" || key == "djmix" then Some("DJ-mix")
    else if key == "spokenword" then Some("Spokenword")
    else if key == "audiodrama" then Some("Audio drama")
    else if key == "mixtapestreet" then Some("Mixtape/Street")
    else if key == "soundtrack" then Some("Soundtrack")
    else None
  }

  /** `NormalizeSecondaryTypeValue`: trim, null when blank, then the aliases. */
  function NormalizeSecondaryTypeValue(value: string): (r: Option<string>)
    ensures r.None? <==> IsBlank(value)
  {
    var normalized := Trim(value);
    TrimBlank(value);
    if IsBlank(normalized) then None
    else if SecondaryAlias(LowerStr(normalized)).Some? then SecondaryAlias(LowerStr(normalized))
    else Some(normalized)
  }

  /** `NormalizeReleaseStatusValue`: trim, null when blank, then "Pseudo Release" (any case) becomes "Pseudo-Release". */
  function NormalizeReleaseStatusValue(value: string): (r: Option<string>)
    ensures r.None? <==> IsBlank(value)
  {
    var normalized := Trim(value);
    TrimBlank(value);
    if IsBlank(normalized) then None
    else if LowerStr(normalized) == "pseudo release" then Some("Pseudo-Release")
    else Some(normalized)
  }

  /** What each list's `Select` does to a non-blank value; primary types are only trimmed. */
  function NormalizeValue(list: FilterList, value: string): (r: Option<string>)
    ensures r.None? <==> IsBlank(value)
  {
    match list
    case PrimaryTypeList => TrimBlank(value); if IsBlank(value) then None else Some(Trim(value))
    case SecondaryTypeList => NormalizeSecondaryTypeValue(value)
    case ReleaseStatusList => NormalizeReleaseStatusValue(value)
  }

  /** A value a list keeps as it is: normalised already, allowed and not blank. */
  predicate Settled(list: FilterList, v: string)
  {
    !IsBlank(v) && NormalizeValue(list, v) == Some(v) && Allowed(list, v)
  }

  /** A value with no white space at its ends trims to itself, and lower-cases letter by letter. */
  lemma {:induction false} Plain(t: string)
    requires |t| > 0 && !IsWhiteSpace(t[0]) && !IsWhiteSpace(t[|t| - 1])
    ensures Trim(t) == t && !IsBlank(t)
  {
  }

  lemma {:induction false} LowerKey(t: string, key: string)
    requires |key| == |t| && forall i :: 0 <= i < |t| ==> Lower(t[i]) == key[i]
    ensures LowerStr(t) == key
  {
  }

  /** The alias table at a key equal to a given literal, without unfolding the literal's neighbours. */
  lemma {:induction false} AliasOfKey(k: string, literal: string)
    requires k == literal
    ensures SecondaryAlias(k) == SecondaryAlias(literal)
  {
  }

  /** A trimmed non-blank value normalises through the alias table alone. */
  lemma {:induction false} TrimmedNormalize(r: string)
    requires |r| > 0 && !IsWhiteSpace(r[0]) && !IsWhiteSpace(r[|r| - 1])
    ensures NormalizeSecondaryTypeValue(r) == if SecondaryAlias(LowerStr(r)).Some? then SecondaryAlias(LowerStr(r)) else Some(r)
  {
    Plain(r);
  }

  /** An alias target is trimmed, not blank, and lower-cases letter by letter. */
  lemma {:induction false} TargetParts(r: string, key: string)
    requires |r| > 0 && !IsWhiteSpace(r[0]) && !IsWhiteSpace(r[|r| - 1])
    requires |key| == |r| && forall i :: 0 <= i < |r| ==> Lower(r[i]) == key[i]
    ensures Trim(r) == r && !IsBlank(r) && LowerStr(r) == key
  {
    Plain(r);
    LowerKey(r, key);
  }

  /** A target whose own key the table maps back to it, or leaves alone, normalises to itself. */
  lemma {:induction false} TargetFixed(r: string, lowered: string)
    requires |r| > 0 && !IsWhiteSpace(r[0]) && !IsWhiteSpace(r[|r| - 1])
    requires |lowered| == |r| && forall i :: 0 <= i < |r| ==> Lower(r[i]) == lowered[i]
    requires SecondaryAlias(lowered) == Some(r) || SecondaryAlias(lowered) == None
    ensures NormalizeSecondaryTypeValue(r) == Some(r)
  {
    TargetParts(r, lowered);
    AliasOfKey(LowerStr(r), lowered);
    TrimmedNormalize(r);
  }

  lemma {:induction false} DjMixTarget(r: string)
    requires r == "DJ-mix"
    ensures NormalizeSecondaryTypeValue(r) == Some(r)
  {
    TargetFixed(r, "dj-mix");
  }

  lemma {:induction false} SpokenwordTarget(r: string)
    requires r == "Spokenword"
    ensures NormalizeSecondaryTypeValue(r) == Some(r)
  {
    TargetFixed(r, "spokenword");
  }

  lemma {:induction false} AudioDramaTarget(r: string)
    requires r == "Audio drama"
    ensures NormalizeSecondaryTypeValue(r) == Some(r)
  {
    TargetFixed(r, "audio drama");
  }

  lemma {:induction false} MixtapeStreetTarget(r: string)
    requires r == "Mixtape/Street"
    ensures NormalizeSecondaryTypeValue(r) == Some(r)
  {
    TargetFixed(r, "mixtape/street");
  }

  lemma {:induction false} SoundtrackTarget(r: string)
    requires r == "Soundtrack"
    ensures NormalizeSecondaryTypeValue(r) == Some(r)
  {
    TargetFixed(r, "soundtrack");
  }

  /** Each alias target is left as it is by the secondary-type normalisation. */
  lemma {:induction false} AliasFixed(key: string)
    requires SecondaryAlias(key).Some?
    ensures NormalizeSecondaryTypeValue(SecondaryAlias(key).value) == SecondaryAlias(key)
  {
    if key == "dj-mix" || key == "djmix" {
      DjMixTarget(SecondaryAlias(key).value);
    } else if key == "spokenword" {
      SpokenwordTarget(SecondaryAlias(key).value);
    } else if key == "audiodrama" {
      AudioDramaTarget(SecondaryAlias(key).value);
    } else if key == "mixtapestreet" {
      MixtapeStreetTarget(SecondaryAlias(key).value);
    } else {
      SoundtrackTarget(SecondaryAlias(key).value);
    }
  }

  /** "Pseudo-Release" is left as it is by the release-status normalisation. */
  lemma {:induction false} StatusTargetFixed(r: string)
    requires r == "Pseudo-Release"
    ensures NormalizeReleaseStatusValue(r) == Some(r)
  {
    TargetParts(r, "pseudo-release");
    assert LowerStr(Trim(r)) != "pseudo release" by { assert "pseudo-release"[6] != "pseudo release"[6]; }
  }

  /** A value no alias applies to normalises to its trimmed self, which normalises to itself. */
  lemma {:induction false} TrimmedFixed(value: string)
    requires !IsBlank(value) && SecondaryAlias(LowerStr(Trim(value))).None?
    ensures NormalizeSecondaryTypeValue(Trim(value)) == Some(Trim(value))
  {
    TrimmedNotBlank(value);
  }

  lemma {:induction false} SecondaryIdempotent(value: string)
    requires !IsBlank(value)
    ensures !IsBlank(NormalizeSecondaryTypeValue(value).value)
    ensures NormalizeSecondaryTypeValue(NormalizeSecondaryTypeValue(value).value) == NormalizeSecondaryTypeValue(value)
  {
    var key := LowerStr(Trim(value));
    if SecondaryAlias(key).Some? {
      AliasFixed(key);
    } else {
      TrimmedFixed(value);
    }
    var r := NormalizeSecondaryTypeValue(value).value;
    assert r[0] in r;
  }

  lemma {:induction false} StatusTrimmedFixed(value: string)
    requires !IsBlank(value) && LowerStr(Trim(value)) != "pseudo release"
    ensures NormalizeReleaseStatusValue(Trim(value)) == Some(Trim(value))
  {
    TrimmedNotBlank(value);
  }

  lemma {:induction false} StatusIdempotent(value: string)
    requires !IsBlank(value)
    ensures !IsBlank(NormalizeReleaseStatusValue(value).value)
    ensures NormalizeReleaseStatusValue(NormalizeReleaseStatusValue(value).value) == NormalizeReleaseStatusValue(value)
  {
    if LowerStr(Trim(value)) == "pseudo release" {
      StatusTargetFixed(NormalizeReleaseStatusValue(value).value);
    } else {
      StatusTrimmedFixed(value);
    }
    var r := NormalizeReleaseStatusValue(value).value;
    assert r[0] in r;
  }

  /** Normalising a value twice is normalising it once: the aliases map onto values they leave alone. */
  lemma {:induction false} NormalizeValueIdempotent(list: FilterList, value: string)
    requires !IsBlank(value)
    ensures !IsBlank(NormalizeValue(list, value).value)
    ensures NormalizeValue(list, NormalizeValue(list, value).value) == NormalizeValue(list, value)
  {
    match list {
      case PrimaryTypeList => TrimmedNotBlank(value);
      case SecondaryTypeList => SecondaryIdempotent(value);
      case ReleaseStatusList => StatusIdempotent(value);
    }
  }

  /** `Where(not blank).Select(normalise).Where(not null).Where(allowed)`, in input order. */
  function Kept(list: FilterList, values: seq<string>): (r: seq<string>)
    ensures |r| <= |values|
    ensures forall i :: 0 <= i < |r| ==> Settled(list, r[i])
  {
    if values == [] then []
    else
      var rest := Kept(list, values[1..]);
      if IsBlank(values[0]) then rest
      else
        var v := NormalizeValue(list, values[0]).value;
        NormalizeValueIdempotent(list, values[0]);
        if Allowed(list, v) then [v] + rest else rest
  }

  /** Settled values pass the pipeline untouched. */
  lemma {:induction false} KeptSettled(list: FilterList, values: seq<string>)
    requires forall i :: 0 <= i < |values| ==> Settled(list, values[i])
    ensures Kept(list, values) == values
  {
    if values != [] {
      assert Settled(list, values[0]);
      KeptStep(list, values);
      KeptSettled(list, values[1..]);
      ConsHeadTail(values);
    }
  }

  /** The case-insensitive keys of some strings. */
  function Keys(values: seq<string>): set<string>
  {
    if values == [] then {} else {LowerStr(values[0])} + Keys(values[1..])
  }

  lemma {:induction false} KeysHas(values: seq<string>, i: nat)
    requires i < |values|
    ensures LowerStr(values[i]) in Keys(values)
  {
    if i > 0 {
      assert values[1..][i - 1] == values[i];
      KeysHas(values[1..], i - 1);
    }
  }

  /** Strings drawn from `b` have keys among `b`'s. */
  lemma {:induction false} KeysSubset(a: seq<string>, b: seq<string>)
    requires forall i :: 0 <= i < |a| ==> a[i] in b
    ensures Keys(a) <= Keys(b)
  {
    if a != [] {
      var j :| 0 <= j < |b| && b[j] == a[0];
      KeysHas(b, j);
      KeysSubset(a[1..], b);
    }
  }

  predicate NoDuplicatesIgnoringCase(values: seq<string>)
  {
    forall i, j :: 0 <= i < j < |values| ==> !EqualsIgnoreCase(values[i], values[j])
  }

  /**
   * `Distinct(InvariantCultureIgnoreCase)` after the keys in `seen`: values
   * from the input, none with a seen key, no two with the same key (that
   * they are the first occurrences, in order, is `DistinctFromFirstOccurrences`).
   */
  function DistinctFrom(values: seq<string>, seen: set<string>): (r: seq<string>)
    ensures forall i :: 0 <= i < |r| ==> r[i] in values && LowerStr(r[i]) !in seen
    ensures NoDuplicatesIgnoringCase(r)
  {
    if values == [] then []
    else if LowerStr(values[0]) in seen then
      var r := DistinctFrom(values[1..], seen);
      assert forall k :: 0 <= k < |r| ==> r[k] in values[1..];
      r
    else
      var rest := DistinctFrom(values[1..], seen + {LowerStr(values[0])});
      assert forall k :: 0 <= k < |rest| ==> rest[k] in values[1..];
      [values[0]] + rest
  }

  /** Every key of the input is either seen already or kept. */
  lemma {:induction false} DistinctFromCovers(values: seq<string>, seen: set<string>)
    ensures Keys(values) <= seen + Keys(DistinctFrom(values, seen))
  {
    if values != [] {
      if LowerStr(values[0]) in seen {
        DistinctFromCovers(values[1..], seen);
      } else {
        var rest := DistinctFrom(values[1..], seen + {LowerStr(values[0])});
        DistinctFromCovers(values[1..], seen + {LowerStr(values[0])});
        assert ([values[0]] + rest)[1..] == rest;
      }
    }
  }

  /**
   * The values that are the first of their key, ignoring case, and whose
   * key is not in `seen`, in input order; read from the back, as a
   * reference for `DistinctFrom`.
   */
  function FirstOccurrences(values: seq<string>, seen: set<string>): seq<string>
  {
    if values == [] then []
    else
      var init, x := values[..|values| - 1], values[|values| - 1];
      FirstOccurrences(init, seen)
      + (if LowerStr(x) !in seen && forall j :: 0 <= j < |init| ==> !EqualsIgnoreCase(init[j], x) then [x] else [])
  }

  /** A key among some strings' keys is the key of one of them. */
  lemma {:induction false} KeysWitness(values: seq<string>, key: string)
    requires key in Keys(values)
    ensures exists j :: 0 <= j < |values| && LowerStr(values[j]) == key
  {
    if LowerStr(values[0]) != key {
      KeysWitness(values[1..], key);
      var j :| 0 <= j < |values[1..]| && LowerStr(values[1..][j]) == key;
      assert values[j + 1] == values[1..][j];
    }
  }

  /** Appending a value keeps it exactly when its key is new to `seen` and to the values before it. */
  lemma {:induction false} DistinctFromSnoc(values: seq<string>, x: string, seen: set<string>)
    ensures DistinctFrom(values + [x], seen)
            == DistinctFrom(values, seen) + (if LowerStr(x) in seen + Keys(values) then [] else [x])
  {
    if values == [] {
      assert values + [x] == [x] && [x][1..] == [];
    } else {
      var v := values[0];
      assert (values + [x])[0] == v && (values + [x])[1..] == values[1..] + [x];
      assert Keys(values) == {LowerStr(v)} + Keys(values[1..]);
      if LowerStr(v) in seen {
        DistinctFromSnoc(values[1..], x, seen);
      } else {
        DistinctFromSnoc(values[1..], x, seen + {LowerStr(v)});
        Assoc([v], DistinctFrom(values[1..], seen + {LowerStr(v)}),
              if LowerStr(x) in seen + Keys(values) then [] else [x]);
      }
    }
  }

  /** `DistinctFrom` keeps exactly the first occurrences of the keys not yet seen, in input order. */
  lemma {:induction false} DistinctFromFirstOccurrences(values: seq<string>, seen: set<string>)
    ensures DistinctFrom(values, seen) == FirstOccurrences(values, seen)
    decreases |values|
  {
    if values != [] {
      var init, x := values[..|values| - 1], values[|values| - 1];
      assert values == init + [x];
      DistinctFromFirstOccurrences(init, seen);
      DistinctFromSnoc(init, x, seen);
      if LowerStr(x) in Keys(init) {
        KeysWitness(init, LowerStr(x));
      }
      forall j | 0 <= j < |init| && EqualsIgnoreCase(init[j], x) ensures LowerStr(x) in Keys(init) {
        KeysHas(init, j);
      }
    }
  }

  /** `Distinct(StringComparer.InvariantCultureIgnoreCase)`: the first value of each key, in input order. */
  function DistinctIgnoringCase(values: seq<string>): (r: seq<string>)
    ensures forall i :: 0 <= i < |r| ==> r[i] in values
    ensures NoDuplicatesIgnoringCase(r) && Keys(r) == Keys(values)
    ensures r == FirstOccurrences(values, {})
  {
    DistinctFromFirstOccurrences(values, {});
    var r := DistinctFrom(values, {});
    DistinctFromCovers(values, {});
    KeysSubset(r, values);
    r
  }

  /** A list without case-insensitive duplicates is its own `Distinct`. */
  lemma {:induction false} DistinctFromUnique(values: seq<string>, seen: set<string>)
    requires NoDuplicatesIgnoringCase(values)
    requires forall i :: 0 <= i < |values| ==> LowerStr(values[i]) !in seen
    ensures DistinctFrom(values, seen) == values
  {
    if values != [] {
      DistinctFromUnique(values[1..], seen + {LowerStr(values[0])});
    }
  }

  /**
   * `NormalizePrimaryTypes`, `NormalizeSecondaryTypes` and
   * `NormalizeReleaseStatuses`: null is empty; the kept values without
   * case-insensitive duplicates, first occurrences first.
   */
  function Normalize(list: FilterList, values: Option<seq<string>>): (r: seq<string>)
    ensures values.None? ==> r == []
    ensures forall i :: 0 <= i < |r| ==> Settled(list, r[i])
    ensures NoDuplicatesIgnoringCase(r)
    ensures values.Some? ==> Keys(r) == Keys(Kept(list, values.value))
    ensures values.Some? ==> r == FirstOccurrences(Kept(list, values.value), {})
  {
    var kept := Kept(list, values.GetOr([]));
    DistinctIgnoringCase(kept)
  }

  /** Normalising an already normalised list returns it unchanged. */
  lemma {:induction false} NormalizeIdempotent(list: FilterList, values: Option<seq<string>>)
    ensures Normalize(list, Some(Normalize(list, values))) == Normalize(list, values)
  {
    var n := Normalize(list, values);
    KeptSettled(list, n);
    DistinctFromUnique(n, {});
  }

  /** Every value a profile lists that survives normalisation is represented, ignoring case. */
  lemma {:induction false} NormalizeKeepsAllowed(list: FilterList, values: seq<string>, i: nat)
    requires i < |values| && !IsBlank(values[i]) && Allowed(list, NormalizeValue(list, values[i]).value)
    ensures LowerStr(NormalizeValue(list, values[i]).value) in Keys(Normalize(list, Some(values)))
  {
    var v := NormalizeValue(list, values[i]).value;
    var kept := Kept(list, values);
    KeptContains(list, values, i);
    var j :| 0 <= j < |kept| && kept[j] == v;
    KeysHas(kept, j);
    NormalizeKeys(list, values);
  }

  lemma NormalizeKeys(list: FilterList, values: seq<string>)
    ensures Keys(Normalize(list, Some(values))) == Keys(Kept(list, values))
  {
  }

  /** One step of `Kept`. */
  lemma KeptStep(list: FilterList, values: seq<string>)
    requires values != []
    ensures !IsBlank(values[0]) && Allowed(list, NormalizeValue(list, values[0]).value) ==>
              Kept(list, values) == [NormalizeValue(list, values[0]).value] + Kept(list, values[1..])
    ensures IsBlank(values[0]) || !Allowed(list, NormalizeValue(list, values[0]).value) ==>
              Kept(list, values) == Kept(list, values[1..])
  {
  }

  lemma {:induction false} KeptContains(list: FilterList, values: seq<string>, i: nat)
    requires i < |values| && !IsBlank(values[i]) && Allowed(list, NormalizeValue(list, values[i]).value)
    ensures NormalizeValue(list, values[i]).value in Kept(list, values)
  {
    KeptStep(list, values);
    if i > 0 {
      assert values[i] == values[1..][i - 1];
      KeptContains(list, values[1..], i - 1);
    }
  }

  // --------------------------------------------------------- applying filters

  predicate DistinctIds(profiles: seq<MetadataProfile>)
  {
    forall i, j :: 0 <= i < j < |profiles| ==> profiles[i].id != profiles[j].id
  }

  /** `TryGetValue` on the profiles by id. */
  function ProfileById(profiles: seq<MetadataProfile>, id: int): (r: Option<MetadataProfile>)
    ensures r.Some? ==> r.value in profiles && r.value.id == id
    ensures r.None? <==> forall i :: 0 <= i < |profiles| ==> profiles[i].id != id
  {
    if profiles == [] then None
    else if profiles[0].id == id then Some(profiles[0])
    else
      var r := ProfileById(profiles[1..], id);
      assert forall i :: 1 <= i < |profiles| ==> profiles[i] == profiles[1..][i - 1];
      r
  }

  /**
   * What a category becomes under its profile: it keeps its identity, name,
   * profiles, root folder and tags, loses its legacy release types, and its
   * filter lists hold only allowed, settled values without case-insensitive
   * duplicates, emptied when the profile's list is null.
   */
  function Filtered(category: SettingsCategory, profile: MetadataProfile): (r: SettingsCategory)
    ensures r.id == category.id && r.name == category.name && r.profileId == category.profileId &&
            r.metadataProfileId == category.metadataProfileId && r.rootFolder == category.rootFolder &&
            r.tags == category.tags && r.releaseTypes == []
    ensures CleanList(PrimaryTypeList, profile.primaryTypes, r.primaryTypes) &&
            CleanList(SecondaryTypeList, profile.secondaryTypes, r.secondaryTypes) &&
            CleanList(ReleaseStatusList, profile.releaseStatuses, r.releaseStatuses)
  {
    NormalizeClean(PrimaryTypeList, profile.primaryTypes);
    NormalizeClean(SecondaryTypeList, profile.secondaryTypes);
    NormalizeClean(ReleaseStatusList, profile.releaseStatuses);
    category.(releaseTypes := [],
              primaryTypes := Normalize(PrimaryTypeList, profile.primaryTypes),
              secondaryTypes := Normalize(SecondaryTypeList, profile.secondaryTypes),
              releaseStatuses := Normalize(ReleaseStatusList, profile.releaseStatuses))
  }

  /**
   * A filter list as a filtered category holds it: only allowed, settled
   * values without case-insensitive duplicates, and empty when the profile's
   * list is null.
   */
  predicate CleanList(list: FilterList, values: Option<seq<string>>, r: seq<string>)
  {
    (forall i :: 0 <= i < |r| ==> Settled(list, r[i])) &&
    NoDuplicatesIgnoringCase(r) &&
    (values.None? ==> r == [])
  }

  /** A normalised list is clean for its profile list. */
  lemma NormalizeClean(list: FilterList, values: Option<seq<string>>)
    ensures CleanList(list, values, Normalize(list, values))
  {
    var r := Normalize(list, values);
    assert forall i :: 0 <= i < |r| ==> Settled(list, r[i]);
  }

  /** Filtering with the same profile twice changes nothing the second time. */
  lemma {:induction false} FilteredIdempotent(category: SettingsCategory, profile: MetadataProfile)
    ensures var p := MetadataProfile(profile.id, profile.name, Some(Filtered(category, profile).primaryTypes),
                                     Some(Filtered(category, profile).secondaryTypes),
                                     Some(Filtered(category, profile).releaseStatuses));
            Filtered(Filtered(category, profile), p) == Filtered(category, profile)
  {
    NormalizeIdempotent(PrimaryTypeList, profile.primaryTypes);
    NormalizeIdempotent(SecondaryTypeList, profile.secondaryTypes);
    NormalizeIdempotent(ReleaseStatusList, profile.releaseStatuses);
  }

  /** The first category whose metadata profile does not exist, or the number of categories. */
  function FirstUnmatched(categories: seq<SettingsCategory>, profiles: seq<MetadataProfile>): (r: nat)
    ensures r <= |categories|
    ensures forall j :: 0 <= j < r ==> ProfileById(profiles, categories[j].metadataProfileId).Some?
    ensures r < |categories| ==> ProfileById(profiles, categories[r].metadataProfileId).None?
  {
    if categories == [] || ProfileById(profiles, categories[0].metadataProfileId).None? then 0
    else
      var r := FirstUnmatched(categories[1..], profiles);
      assert forall j :: 1 <= j < |categories| ==> categories[j] == categories[1..][j - 1];
      1 + r
  }

  /** `after` is `before` filtered through the metadata profile it names. */
  predicate FilteredFrom(after: SettingsCategory, before: SettingsCategory, profiles: seq<MetadataProfile>)
  {
    ProfileById(profiles, before.metadataProfileId).Some? &&
    after == Filtered(before, ProfileById(profiles, before.metadataProfileId).value)
  }

  /**
   * `ApplyProfileFiltersToCategories`: duplicate profile ids fail before any
   * change; otherwise categories are rewritten in order until one names a
   * missing profile, which fails and leaves it and the rest as they were.
   */
  method ApplyProfileFilters(categories: array<SettingsCategory>, profiles: seq<MetadataProfile>) returns (ok: bool)
    modifies categories
    ensures !DistinctIds(profiles) ==> !ok && categories[..] == old(categories[..])
    ensures DistinctIds(profiles) ==>
              var k := FirstUnmatched(old(categories[..]), profiles);
              (ok <==> k == categories.Length) &&
              (forall i :: 0 <= i < k ==> FilteredFrom(categories[i], old(categories[i]), profiles)) &&
              (forall i :: k <= i < categories.Length ==> categories[i] == old(categories[i]))
  {
    if !DistinctIds(profiles) {
      return false;
    }
    ok := FilterUntilUnmatched(categories, profiles, Filtered);
  }

  /**
   * The loop of `ApplyProfileFilters`, over any rewriting `filter` of a
   * category by its profile: it stops at the first category whose profile
   * is missing.
   */
  method FilterUntilUnmatched(categories: array<SettingsCategory>, profiles: seq<MetadataProfile>,
                              filter: (SettingsCategory, MetadataProfile) -> SettingsCategory)
    returns (ok: bool)
    modifies categories
    ensures var k := FirstUnmatched(old(categories[..]), profiles);
            (ok <==> k == categories.Length) &&
            (forall i :: 0 <= i < k ==>
               categories[i] == filter(old(categories[i]), ProfileById(profiles, old(categories[i]).metadataProfileId).value)) &&
            (forall i :: k <= i < categories.Length ==> categories[i] == old(categories[i]))
  {
    ghost var before := categories[..];
    ghost var k := FirstUnmatched(before, profiles);
    var i := 0;
    while i < categories.Length
      invariant 0 <= i <= categories.Length && i <= k
      invariant forall j :: 0 <= j < i ==>
                  categories[j] == filter(before[j], ProfileById(profiles, before[j].metadataProfileId).value)
      invariant forall j :: i <= j < categories.Length ==> categories[j] == before[j]
    {
      var profile := ProfileById(profiles, categories[i].metadataProfileId);
      assert categories[i] == before[i];
      if profile.None? {
        break;
      }
      assert i < k;
      categories[i] := filter(categories[i], profile.value);
      i := i + 1;
    }
    assert i == k;
    ok := i == categories.Length;
  }
}
