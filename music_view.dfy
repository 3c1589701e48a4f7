/**
 * The music settings page: the "force single" restriction items offered for
 * the primary types the Lidarr categories use, and the comma-separated
 * restriction string the page stores and reads back.
 */
module MusicView {
  import opened Wrappers
  import opened Text
  import opened Sequences
  import opened MusicClients

  // ------------------------------------------------------------- ordering

  const ReleaseTypeOrder: seq<string> := ["Album", "EP", "Single", "Broadcast", "Other"]

  /** The rank of a type unknown to `ReleaseTypeOrder`: after every known one. */
  const UnknownRank: nat := 999

  /** `ReleaseTypeOrder.indexOf(t)`, with -1 mapped to the unknown rank. */
  function Rank(t: string): (r: nat)
    ensures r == UnknownRank <==> t !in ReleaseTypeOrder
    ensures r < |ReleaseTypeOrder| ==> ReleaseTypeOrder[r] == t
    ensures r < |ReleaseTypeOrder| || r == UnknownRank
  {
    if t == "Album" then 0
    else if t == "EP" then 1
    else if t == "Single" then 2
    else if t == "Broadcast" then 3
    else if t == "Other" then 4
    else UnknownRank
  }

  /** Ordinal comparison of strings, code unit by code unit: `a` sorts no later than `b`. */
  predicate LexLe(a: string, b: string)
  {
    a == [] || (b != [] && (a[0] < b[0] || (a[0] == b[0] && LexLe(a[1..], b[1..]))))
  }

  lemma {:induction false} LexTotal(a: string, b: string)
    ensures LexLe(a, b) || LexLe(b, a)
  {
    if a != [] && b != [] && a[0] == b[0] {
      LexTotal(a[1..], b[1..]);
    }
  }

  lemma {:induction false} LexAntisymmetric(a: string, b: string)
    requires LexLe(a, b) && LexLe(b, a)
    ensures a == b
  {
    if a != [] {
      LexAntisymmetric(a[1..], b[1..]);
      assert a == [a[0]] + a[1..] && b == [b[0]] + b[1..];
    }
  }

  lemma {:induction false} LexTransitive(a: string, b: string, c: string)
    requires LexLe(a, b) && LexLe(b, c)
    ensures LexLe(a, c)
  {
    if a != [] && b != [] && c != [] && a[0] == b[0] && b[0] == c[0] {
      LexTransitive(a[1..], b[1..], c[1..]);
    }
  }

  /** The comparator of the restriction items: by rank, then by the string itself. */
  predicate InOrder(a: string, b: string)
  {
    Rank(a) < Rank(b) || (Rank(a) == Rank(b) && LexLe(a, b))
  }

  lemma InOrderTotal(a: string, b: string)
    ensures InOrder(a, b) || InOrder(b, a)
  {
    LexTotal(a, b);
  }

  lemma InOrderTransitive(a: string, b: string, c: string)
    requires InOrder(a, b) && InOrder(b, c)
    ensures InOrder(a, c)
  {
    if Rank(a) == Rank(b) == Rank(c) {
      LexTransitive(a, b, c);
    }
  }

  predicate Sorted(s: seq<string>)
  {
    forall i :: 0 < i < |s| ==> InOrder(s[i - 1], s[i])
  }

  /** `t` placed into a sorted list before the first entry it sorts no later than. */
  function Insert(t: string, s: seq<string>): (r: seq<string>)
    ensures multiset(r) == multiset(s) + multiset{t}
    ensures r != [] && (r[0] == t || (s != [] && r[0] == s[0]))
  {
    if s == [] then [t]
    else if InOrder(t, s[0]) then [t] + s
    else
      assert s == [s[0]] + s[1..];
      [s[0]] + Insert(t, s[1..])
  }

  /** Inserting into a sorted list keeps it sorted. */
  lemma {:induction false} InsertSorted(t: string, s: seq<string>)
    requires Sorted(s)
    ensures Sorted(Insert(t, s))
  {
    if s != [] && !InOrder(t, s[0]) {
      var tail := s[1..];
      assert Sorted(tail) by {
        forall i | 0 < i < |tail| ensures InOrder(tail[i - 1], tail[i]) {
          assert tail[i - 1] == s[i] && tail[i] == s[i + 1];
        }
      }
      InsertSorted(t, tail);
      InOrderTotal(t, s[0]);
      var rest := Insert(t, tail);
      var r := [s[0]] + rest;
      assert r == Insert(t, s);
      forall i | 0 < i < |r| ensures InOrder(r[i - 1], r[i]) {
        if i == 1 {
          assert r[1] == rest[0];
          if rest[0] != t { assert rest[0] == s[1]; }
        } else {
          assert r[i - 1] == rest[i - 2] && r[i] == rest[i - 1];
        }
      }
    }
  }

  /** `Array.prototype.sort` with the comparator of the restriction items. */
  function SortTypes(s: seq<string>): (r: seq<string>)
    ensures multiset(r) == multiset(s)
    ensures Sorted(r)
  {
    if s == [] then []
    else
      assert s == [s[0]] + s[1..];
      InsertSorted(s[0], SortTypes(s[1..]));
      Insert(s[0], SortTypes(s[1..]))
  }

  /** A sorted list is in order pairwise, not only between neighbours. */
  lemma {:induction false} SortedPairwise(s: seq<string>, i: int, j: int)
    requires Sorted(s) && 0 <= i < j < |s|
    ensures InOrder(s[i], s[j])
    decreases j - i
  {
    if j > i + 1 {
      SortedPairwise(s, i, j - 1);
      InOrderTransitive(s[i], s[j - 1], s[j]);
    }
  }

  /** Two sorted lists without repeats that hold the same strings are the same list. */
  lemma {:induction false} SortedUnique(a: seq<string>, b: seq<string>)
    requires Sorted(a) && Sorted(b) && Distinct(a) && Distinct(b)
    requires forall x :: x in a <==> x in b
    ensures a == b
  {
    if a != [] && b != [] {
      assert a[0] == b[0] by {
        assert a[0] in a && b[0] in b;
        var k :| 0 <= k < |b| && b[k] == a[0];
        var m :| 0 <= m < |a| && a[m] == b[0];
        if k > 0 && m > 0 {
          SortedPairwise(b, 0, k);
          SortedPairwise(a, 0, m);
          LexAntisymmetric(a[0], b[0]);
        }
      }
      assert Sorted(a[1..]) by {
        forall i | 0 < i < |a[1..]| ensures InOrder(a[1..][i - 1], a[1..][i]) {
          assert a[1..][i - 1] == a[i] && a[1..][i] == a[i + 1];
        }
      }
      assert Sorted(b[1..]) by {
        forall i | 0 < i < |b[1..]| ensures InOrder(b[1..][i - 1], b[1..][i]) {
          assert b[1..][i - 1] == b[i] && b[1..][i] == b[i + 1];
        }
      }
      forall x ensures x in a[1..] <==> x in b[1..] {
        DistinctTail(a, x);
        DistinctTail(b, x);
      }
      SortedUnique(a[1..], b[1..]);
      assert a == [a[0]] + a[1..] && b == [b[0]] + b[1..];
    } else if a != [] {
      HeadIn(a);
    } else if b != [] {
      HeadIn(b);
    }
  }

  lemma HeadIn(s: seq<string>)
    requires s != []
    ensures s[0] in s
  {
  }

  /** In a list without repeats, the tail holds exactly the values other than the head. */
  lemma DistinctTail(s: seq<string>, x: string)
    requires Distinct(s) && s != []
    ensures Distinct(s[1..])
    ensures x in s[1..] <==> x in s && x != s[0]
  {
    if x in s[1..] {
      var k :| 0 <= k < |s[1..]| && s[1..][k] == x;
      assert s[k + 1] == x;
    }
    if x in s && x != s[0] {
      var k :| 0 <= k < |s| && s[k] == x;
      assert s[1..][k - 1] == x;
    }
  }

  // ------------------------------------------------------ restriction items

  /** A category offers a type when its primary types list it. */
  predicate Offered(categories: seq<Category>, t: string)
  {
    exists c :: c in categories && t in c.primaryTypes.GetOr([])
  }

  /** `categories.flatMap(x => x.primaryTypes || [])`. */
  function PrimaryTypes(categories: seq<Category>): (r: seq<string>)
    ensures forall t :: t in r <==> Offered(categories, t)
  {
    if categories == [] then []
    else
      var init := categories[..|categories| - 1];
      var last := categories[|categories| - 1];
      var r := PrimaryTypes(init) + last.primaryTypes.GetOr([]);
      assert forall t :: Offered(categories, t) <==> Offered(init, t) || t in last.primaryTypes.GetOr([]) by {
        assert categories == init + [last];
      }
      r
  }

  /** The non-blank entries, in order. */
  function NonBlank(s: seq<string>): (r: seq<string>)
    ensures forall t :: t in r <==> t in s && !IsBlank(t)
  {
    if s == [] then []
    else if IsBlank(s[0]) then NonBlank(s[1..])
    else [s[0]] + NonBlank(s[1..])
  }

  /** `[...new Set(s)]`: the first occurrence of each value, in order. */
  function Dedup(s: seq<string>): (r: seq<string>)
    ensures forall t :: t in r <==> t in s
    ensures Distinct(r)
  {
    if s == [] then []
    else
      var init := s[..|s| - 1];
      var last := s[|s| - 1];
      var r := Dedup(init);
      assert s == init + [last];
      if last in r then r else r + [last]
  }

  /** The types the restriction items are built from, sorted. */
  function AvailableTypes(categories: seq<Category>): (r: seq<string>)
    ensures forall t :: t in r <==> !IsBlank(t) && Offered(categories, t)
    ensures Distinct(r) && Sorted(r)
  {
    var types := Dedup(NonBlank(PrimaryTypes(categories)));
    var r := SortTypes(types);
    assert forall t :: t in r <==> t in multiset(r);
    assert forall t :: t in types <==> t in multiset(types);
    SortKeepsDistinct(types, r);
    r
  }

  /** A list with the same values, each as many times, as a list without repeats has none either. */
  lemma SortKeepsDistinct(s: seq<string>, r: seq<string>)
    requires Distinct(s) && multiset(r) == multiset(s)
    ensures Distinct(r)
  {
    forall i, j | 0 <= i < j < |r| ensures r[i] != r[j] {
      if r[i] == r[j] {
        assert multiset(r)[r[i]] >= 2 by {
          assert multiset{r[i], r[j]} <= multiset(r) by {
            var a := r[..i] + r[i + 1..j] + r[j + 1..];
            assert r == r[..i] + [r[i]] + r[i + 1..j] + [r[j]] + r[j + 1..];
          }
        }
        DistinctOnce(s, r[i]);
      }
    }
  }

  /** A value occurs at most once in a list without repeats. */
  lemma {:induction false} DistinctOnce(s: seq<string>, x: string)
    requires Distinct(s)
    ensures multiset(s)[x] <= 1
  {
    if s != [] {
      DistinctTail(s, x);
      DistinctOnce(s[1..], x);
      assert s == [s[0]] + s[1..];
      assert multiset(s) == multiset{s[0]} + multiset(s[1..]);
    }
  }

  datatype RestrictionItem = RestrictionItem(id: string, name: string)

  const SinglePrefix: string := "Single:"

  /** The item that forces single downloads of one primary type. */
  function ItemFor(t: string): (r: RestrictionItem)
    ensures r.id == SinglePrefix + t
  {
    RestrictionItem(SinglePrefix + t, "Force single " + LowerStr(t))
  }

  lemma ItemForInjective(a: string, b: string)
    requires ItemFor(a).id == ItemFor(b).id
    ensures a == b
  {
    assert a == (SinglePrefix + a)[|SinglePrefix|..];
    assert b == (SinglePrefix + b)[|SinglePrefix|..];
  }

  /** `getRestrictionItems`: one item per available type, in the types' sorted order. */
  function RestrictionItems(categories: seq<Category>): (r: seq<RestrictionItem>)
    ensures |r| == |AvailableTypes(categories)|
    ensures forall i :: 0 <= i < |r| ==> r[i] == ItemFor(AvailableTypes(categories)[i])
  {
    var types := AvailableTypes(categories);
    seq(|types|, i requires 0 <= i < |types| => ItemFor(types[i]))
  }

  /**
   * A type has an item exactly when it is non-blank and some category lists
   * it as a primary type; item ids never repeat; items are ordered by the
   * release-type order, unknown types last, ties by the string.
   */
  lemma RestrictionItemsExact(categories: seq<Category>, t: string)
    ensures ItemFor(t) in RestrictionItems(categories) <==> !IsBlank(t) && Offered(categories, t)
    ensures forall i, j :: 0 <= i < j < |RestrictionItems(categories)| ==>
      RestrictionItems(categories)[i].id != RestrictionItems(categories)[j].id &&
      InOrder(AvailableTypes(categories)[i], AvailableTypes(categories)[j])
  {
    var items := RestrictionItems(categories);
    var types := AvailableTypes(categories);
    if ItemFor(t) in items {
      var k :| 0 <= k < |items| && items[k] == ItemFor(t);
      ItemForInjective(t, types[k]);
    }
    if !IsBlank(t) && Offered(categories, t) {
      var k :| 0 <= k < |types| && types[k] == t;
      assert items[k] == ItemFor(t);
    }
    forall i, j | 0 <= i < j < |items|
      ensures items[i].id != items[j].id && InOrder(types[i], types[j])
    {
      if items[i].id == items[j].id {
        ItemForInjective(types[i], types[j]);
      }
      SortedPairwise(types, i, j);
    }
  }

  /** The item list does not depend on the order of the categories or the order within their lists. */
  lemma RestrictionItemsOrderFree(c1: seq<Category>, c2: seq<Category>)
    requires forall t :: Offered(c1, t) <==> Offered(c2, t)
    ensures RestrictionItems(c1) == RestrictionItems(c2)
  {
    SortedUnique(AvailableTypes(c1), AvailableTypes(c2));
  }

  // --------------------------------------------------- the restriction string

  /** `normalizeLegacyRestriction`: the three old single-type values are renamed. */
  function NormalizeLegacy(value: string): (r: string)
    ensures value == "SingleAlbum" ==> r == "Single:Album"
    ensures value == "SingleEP" ==> r == "Single:EP"
    ensures value == "SingleSingle" ==> r == "Single:Single"
    ensures value != "SingleAlbum" && value != "SingleEP" && value != "SingleSingle" ==> r == value
  {
    if value == "SingleAlbum" then "Single:Album"
    else if value == "SingleEP" then "Single:EP"
    else if value == "SingleSingle" then "Single:Single"
    else value
  }

  /** Normalising twice is normalising once; an id of the current form is left as it is. */
  lemma NormalizeLegacyIdempotent(value: string)
    ensures NormalizeLegacy(NormalizeLegacy(value)) == NormalizeLegacy(value)
    ensures StartsWith(value, SinglePrefix) ==> NormalizeLegacy(value) == value
  {
    if StartsWith(value, SinglePrefix) {
      assert value[6] == ':';
      assert "SingleAlbum"[6] != ':' && "SingleEP"[6] != ':' && "SingleSingle"[6] != ':';
    }
  }

  /** The trimmed, normalised, non-empty fields of a split restriction string. */
  function SelectedIdsOf(fields: seq<string>): (r: seq<string>)
    ensures forall x :: x in r <==> x != "" && exists f :: f in fields && x == NormalizeLegacy(Trim(f))
  {
    if fields == [] then []
    else
      var id := NormalizeLegacy(Trim(fields[0]));
      if |id| > 0 then [id] + SelectedIdsOf(fields[1..]) else SelectedIdsOf(fields[1..])
  }

  /** The ids a stored restriction string selects. */
  function SelectedIds(restrictions: string): (r: seq<string>)
    ensures forall x :: x in r <==> x != "" && exists f :: f in Split(restrictions, ',') && x == NormalizeLegacy(Trim(f))
  {
    SelectedIdsOf(Split(restrictions, ','))
  }

  /**
   * `items.filter(x => ids.includes(x.id))`: the items with a listed id, in
   * the items' order, and without repeats when the items have none.
   */
  function KeepSelected(items: seq<RestrictionItem>, ids: seq<string>): (r: seq<RestrictionItem>)
    ensures forall it :: it in r <==> it in items && it.id in ids
    ensures IsSubsequence(r, items)
    ensures Distinct(items) ==> Distinct(r)
  {
    if items == [] then []
    else
      var rest := KeepSelected(items[1..], ids);
      DistinctStep(items, rest);
      if items[0].id in ids then [items[0]] + rest else rest
  }

  /** Filtering works on each part of the items independently, so the kept items stay in order. */
  lemma {:induction false} KeepSelectedConcat(a: seq<RestrictionItem>, b: seq<RestrictionItem>, ids: seq<string>)
    ensures KeepSelected(a + b, ids) == KeepSelected(a, ids) + KeepSelected(b, ids)
  {
    if a == [] {
      assert a + b == b;
    } else {
      assert (a + b)[0] == a[0] && (a + b)[1..] == a[1..] + b;
      KeepSelectedConcat(a[1..], b, ids);
    }
  }

  /** `getSelectedRestrictions`. */
  function SelectedRestrictions(restrictions: string, categories: seq<Category>): (r: seq<RestrictionItem>)
    ensures restrictions == "" || restrictions == NoRestrictions ==> r == []
    ensures restrictions != "" && restrictions != NoRestrictions ==>
      forall it :: it in r <==> it in RestrictionItems(categories) && it.id in SelectedIds(restrictions)
    ensures IsSubsequence(r, RestrictionItems(categories)) && Distinct(r)
  {
    if restrictions == "" || restrictions == NoRestrictions then []
    else
      RestrictionItemsDistinct(categories);
      KeepSelected(RestrictionItems(categories), SelectedIds(restrictions))
  }

  /** The available items never repeat. */
  lemma RestrictionItemsDistinct(categories: seq<Category>)
    ensures Distinct(RestrictionItems(categories))
  {
    RestrictionItemsExact(categories, "");
  }

  function IdsOf(items: seq<RestrictionItem>): (r: seq<string>)
    ensures |r| == |items|
    ensures forall i :: 0 <= i < |items| ==> r[i] == items[i].id
  {
    if items == [] then [] else [items[0].id] + IdsOf(items[1..])
  }

  function NormalizeAll(ids: seq<string>): (r: seq<string>)
    ensures |r| == |ids|
    ensures forall i :: 0 <= i < |ids| ==> r[i] == NormalizeLegacy(ids[i])
  {
    if ids == [] then [] else [NormalizeLegacy(ids[0])] + NormalizeAll(ids[1..])
  }

  /** The string `onRestrictionsChanged` stores: "None" for no items, else the normalised ids joined by commas. */
  function RestrictionsString(values: Option<seq<RestrictionItem>>): (r: string)
    ensures values.GetOr([]) == [] ==> r == NoRestrictions
  {
    var ids := IdsOf(values.GetOr([]));
    if ids == [] then NoRestrictions else Join(NormalizeAll(ids), ",")
  }

  /** The ids of comma-free, trimmed available items are comma-free, trimmed and of the current form. */
  lemma AvailableIdsClean(values: seq<RestrictionItem>, categories: seq<Category>)
    requires forall v :: v in values ==> v in RestrictionItems(categories)
    requires forall v :: v in values ==> Storable(v)
    ensures CleanIds(IdsOf(values))
  {
    var ids := IdsOf(values);
    var items := RestrictionItems(categories);
    forall k | 0 <= k < |ids|
      ensures ',' !in ids[k] && Trimmed(ids[k]) && StartsWith(ids[k], SinglePrefix)
    {
      assert values[k] in values;
      assert Storable(values[k]);
      var m :| 0 <= m < |items| && items[m] == values[k];
      var t := AvailableTypes(categories)[m];
      assert ids[k] == SinglePrefix + t;
      assert ids[k][..|SinglePrefix|] == SinglePrefix;
      TrimmedIsTrim(ids[k]);
    }
    forall k | 0 <= k < |ids| ensures NormalizeLegacy(ids[k]) == ids[k] {
      NormalizeLegacyIdempotent(ids[k]);
    }
  }

  /** An id the stored string gives back unchanged: comma-free, trimmed, prefixed and so not legacy. */
  predicate CleanId(id: string)
  {
    ',' !in id && Trimmed(id) && StartsWith(id, SinglePrefix) && NormalizeLegacy(id) == id
  }

  predicate CleanIds(ids: seq<string>)
  {
    forall k :: 0 <= k < |ids| ==> CleanId(ids[k])
  }

  /** Clean ids joined by commas are read back as they are, and the string is neither empty nor "None". */
  lemma CleanIdsReadBack(ids: seq<string>)
    requires ids != [] && CleanIds(ids)
    ensures NormalizeAll(ids) == ids
    ensures Join(ids, ",") != "" && Join(ids, ",") != NoRestrictions
    ensures SelectedIds(Join(ids, ",")) == ids
  {
    assert NoSep(ids, ',');
    SplitJoin(ids, ',');
    SelectedIdsOfClean(ids);
    JoinHead(ids);
    assert ids[0][0] == SinglePrefix[0];
  }

  /** Among the available items, those whose id is stored are exactly the stored items. */
  lemma StoredItemsMatch(values: seq<RestrictionItem>, categories: seq<Category>)
    requires forall v :: v in values ==> v in RestrictionItems(categories)
    ensures forall it :: it in RestrictionItems(categories) && it.id in IdsOf(values) <==> it in values
  {
    var items := RestrictionItems(categories);
    var types := AvailableTypes(categories);
    var ids := IdsOf(values);
    forall it | it in items && it.id in ids ensures it in values {
      var k :| 0 <= k < |ids| && ids[k] == it.id;
      assert values[k] in values;
      var m :| 0 <= m < |items| && items[m] == values[k];
      var n :| 0 <= n < |items| && items[n] == it;
      ItemForInjective(types[m], types[n]);
    }
    forall v | v in values ensures v.id in ids {
      var k :| 0 <= k < |values| && values[k] == v;
      assert ids[k] == v.id;
    }
  }

  /** An item whose id holds no comma and has no white space at either end. */
  predicate Storable(v: RestrictionItem)
  {
    ',' !in v.id && Trim(v.id) == v.id
  }

  /**
   * Storing a selection of available items and reading it back gives the
   * same items, when no item id holds a comma or ends in white space.
   */
  lemma RestrictionsRoundTrip(values: seq<RestrictionItem>, categories: seq<Category>)
    requires forall v :: v in values ==> v in RestrictionItems(categories)
    requires forall v :: v in values ==> Storable(v)
    ensures SameItems(SelectedRestrictions(RestrictionsString(Some(values)), categories), values)
  {
    if values == [] {
      EmptySelection(categories);
    } else {
      StoredString(values, categories);
      StoredSelectionMatches(values, categories, RestrictionsString(Some(values)), IdsOf(values));
    }
  }

  /** A non-empty selection of available, storable items is stored as a string that reads back as its ids. */
  lemma StoredString(values: seq<RestrictionItem>, categories: seq<Category>)
    requires forall v :: v in values ==> v in RestrictionItems(categories)
    requires forall v :: v in values ==> Storable(v)
    requires values != []
    ensures RestrictionsString(Some(values)) != "" && RestrictionsString(Some(values)) != NoRestrictions
    ensures SelectedIds(RestrictionsString(Some(values))) == IdsOf(values)
  {
    AvailableIdsClean(values, categories);
    StoredIdsReadBack(values);
  }

  /** Non-empty clean ids are stored as a string that reads back as those ids. */
  lemma StoredIdsReadBack(values: seq<RestrictionItem>)
    requires values != [] && CleanIds(IdsOf(values))
    ensures RestrictionsString(Some(values)) != "" && RestrictionsString(Some(values)) != NoRestrictions
    ensures SelectedIds(RestrictionsString(Some(values))) == IdsOf(values)
  {
    StoredAsJoin(values);
    CleanIdsReadBack(IdsOf(values));
  }

  /** A non-empty selection is stored as its normalised ids joined by commas. */
  lemma StoredAsJoin(values: seq<RestrictionItem>)
    requires values != []
    ensures RestrictionsString(Some(values)) == Join(NormalizeAll(IdsOf(values)), ",")
  {
  }

  /** The two lists hold the same items. */
  ghost predicate SameItems(a: seq<RestrictionItem>, b: seq<RestrictionItem>)
  {
    forall it :: it in a <==> it in b
  }

  lemma EmptySelection(categories: seq<Category>)
    ensures SelectedRestrictions(RestrictionsString(Some([])), categories) == []
  {
  }

  /** A stored string that reads back as the items' ids selects exactly those items. */
  lemma StoredSelectionMatches(values: seq<RestrictionItem>, categories: seq<Category>, s: string, ids: seq<string>)
    requires forall v :: v in values ==> v in RestrictionItems(categories)
    requires ids == IdsOf(values)
    requires s != "" && s != NoRestrictions && SelectedIds(s) == ids
    ensures SameItems(SelectedRestrictions(s, categories), values)
  {
    SelectedFromIds(s, categories, ids);
    StoredItemsMatch(values, categories);
    SameMembers(SelectedRestrictions(s, categories), RestrictionItems(categories), ids, values);
  }

  lemma SameMembers(selected: seq<RestrictionItem>, items: seq<RestrictionItem>, ids: seq<string>,
                    values: seq<RestrictionItem>)
    requires forall it :: it in selected <==> it in items && it.id in ids
    requires forall it :: it in items && it.id in ids <==> it in values
    ensures forall it :: it in selected <==> it in values
  {
  }

  /** A string other than "" and "None" selects the available items whose ids it lists. */
  lemma SelectedFromIds(s: string, categories: seq<Category>, ids: seq<string>)
    requires s != "" && s != NoRestrictions && SelectedIds(s) == ids
    ensures forall it :: it in SelectedRestrictions(s, categories) <==> it in RestrictionItems(categories) && it.id in ids
  {
  }

  /** Clean ids come back unchanged from the field clean-up. */
  lemma {:induction false} SelectedIdsOfClean(ids: seq<string>)
    requires CleanIds(ids)
    ensures SelectedIdsOf(ids) == ids
  {
    if ids != [] {
      var tail := ids[1..];
      assert CleanIds(tail) by {
        forall k | 0 <= k < |tail| ensures CleanId(tail[k]) {
          assert tail[k] == ids[k + 1];
        }
      }
      SelectedIdsOfClean(tail);
      assert CleanId(ids[0]);
      TrimmedIsTrim(ids[0]);
      assert |ids[0]| >= |SinglePrefix|;
      ConsHeadTail(ids);
    }
  }

  /** A joined string starts with its first part. */
  lemma JoinHead(parts: seq<string>)
    requires |parts| >= 1 && |parts[0]| >= 1
    ensures |Join(parts, ",")| >= 1 && Join(parts, ",")[0] == parts[0][0]
  {
  }

  /**
   * The limit of the round trip: a type ending in white space is offered,
   * but once stored its trimmed id no longer matches its item.
   */
  lemma TrailingSpaceNotReadBack(categories: seq<Category>, t: string)
    requires ItemFor(t) in RestrictionItems(categories)
    requires t != [] && ',' !in t && IsWhiteSpace(t[|t| - 1])
    ensures ItemFor(t) !in SelectedRestrictions(RestrictionsString(Some([ItemFor(t)])), categories)
  {
    var id := ItemFor(t).id;
    StoredSingle(t);
    assert id[|id| - 1] == t[|t| - 1];
    TrailingIdDropped(id);
  }

  /** One item is stored as its own id. */
  lemma StoredSingle(t: string)
    ensures RestrictionsString(Some([ItemFor(t)])) == ItemFor(t).id
    ensures ItemFor(t).id != "" && ItemFor(t).id != NoRestrictions
  {
    var id := ItemFor(t).id;
    assert IdsOf([ItemFor(t)]) == [id];
    assert StartsWith(id, SinglePrefix) by {
      assert id[..|SinglePrefix|] == SinglePrefix;
    }
    NormalizeLegacyIdempotent(id);
    assert NormalizeAll([id]) == [id];
    assert id[1] != NoRestrictions[1];
  }

  /** An id ending in white space does not read back as itself. */
  lemma TrailingIdDropped(id: string)
    requires id != [] && ',' !in id && IsWhiteSpace(id[|id| - 1])
    ensures id !in SelectedIds(id)
  {
    SplitPlain(id, ',');
    var n := NormalizeLegacy(Trim(id));
    assert n == [] || !IsWhiteSpace(n[|n| - 1]);
    assert SelectedIdsOf([id]) == (if |n| > 0 then [n] else []) by {
      assert [id][1..] == [];
    }
  }
}
