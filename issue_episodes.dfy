/**
 * The episode list of the TV issue form: the episodes of the selected
 * season, sorted by number, behind an entry for the whole season.
 */
module IssueEpisodes {
  import opened Wrappers
  import opened Text
  import opened DiscordText
  import TvIssueWorkflow

  predicate Ascending(s: seq<int>)
  {
    forall i, j :: 0 <= i < j < |s| ==> s[i] <= s[j]
  }

  lemma AscendingCons(h: int, t: seq<int>)
    requires Ascending(t) && forall j :: 0 <= j < |t| ==> h <= t[j]
    ensures Ascending([h] + t)
  {
    var s := [h] + t;
    forall i, j | 0 <= i < j < |s| ensures s[i] <= s[j] {
      assert s[j] == t[j - 1];
      if i > 0 { assert s[i] == t[i - 1]; }
    }
  }

  /** Inserting into an ascending list keeps it ascending and adds exactly one element. */
  function Insert(x: int, s: seq<int>): (r: seq<int>)
    requires Ascending(s)
    ensures Ascending(r) && multiset(r) == multiset(s) + multiset{x} && |r| == |s| + 1
  {
    if s == [] || x <= s[0] then
      AscendingCons(x, s);
      [x] + s
    else
      var t := s[1..];
      assert s == [s[0]] + t;
      var rest := Insert(x, t);
      InsertedPastHead(x, s, rest);
      [s[0]] + rest
  }

  /** The head of an ascending list, no larger than `x`, still heads `x` inserted into the tail. */
  lemma InsertedPastHead(x: int, s: seq<int>, rest: seq<int>)
    requires Ascending(s) && s != [] && s[0] < x
    requires Ascending(rest) && multiset(rest) == multiset(s[1..]) + multiset{x}
    ensures Ascending([s[0]] + rest)
  {
    var t := s[1..];
    forall j | 0 <= j < |rest| ensures s[0] <= rest[j] {
      assert rest[j] in multiset(rest);
      if rest[j] != x {
        assert rest[j] in multiset(t);
        var i :| 0 <= i < |t| && t[i] == rest[j];
        assert s[i + 1] == t[i];
      }
    }
    AscendingCons(s[0], rest);
  }

  /** `OrderBy(x => x.EpisodeNumber)` on the episode numbers: ascending, with the same numbers. */
  function SortNumbers(s: seq<int>): (r: seq<int>)
    ensures Ascending(r) && multiset(r) == multiset(s) && |r| == |s|
  {
    if s == [] then []
    else
      assert s == [s[0]] + s[1..];
      Insert(s[0], SortNumbers(s[1..]))
  }

  /** No season before position `i` is numbered `n`. */
  predicate NoneNumberedBefore(seasons: seq<TvIssueWorkflow.Season>, n: int, i: int)
  {
    forall j :: 0 <= j < i && j < |seasons| ==> seasons[j].seasonNumber != n
  }

  /** `FirstOrDefault(x => x.SeasonNumber == n)`: the first season numbered `n`, of any kind. */
  function SeasonNumbered(seasons: seq<TvIssueWorkflow.Season>, n: int): (r: Option<TvIssueWorkflow.Season>)
    ensures r.Some? ==> r.value in seasons && r.value.seasonNumber == n
    ensures r.Some? ==> exists i :: 0 <= i < |seasons| && seasons[i] == r.value && NoneNumberedBefore(seasons, n, i)
    ensures r.None? ==> forall i :: 0 <= i < |seasons| ==> seasons[i].seasonNumber != n
  {
    if seasons == [] then None
    else if seasons[0].seasonNumber == n then Some(seasons[0])
    else
      var rest := SeasonNumbered(seasons[1..], n);
      FirstNumberedPastHead(seasons, n, rest);
      rest
  }

  /** A first season numbered `n` in the tail, past a head numbered otherwise, is the first in the whole list. */
  lemma FirstNumberedPastHead(seasons: seq<TvIssueWorkflow.Season>, n: int, r: Option<TvIssueWorkflow.Season>)
    requires seasons != [] && seasons[0].seasonNumber != n
    requires r.Some? ==> exists i :: 0 <= i < |seasons[1..]| && seasons[1..][i] == r.value && NoneNumberedBefore(seasons[1..], n, i)
    ensures r.Some? ==> exists i :: 0 <= i < |seasons| && seasons[i] == r.value && NoneNumberedBefore(seasons, n, i)
  {
    if r.Some? {
      var i :| 0 <= i < |seasons[1..]| && seasons[1..][i] == r.value && NoneNumberedBefore(seasons[1..], n, i);
      forall j | 0 <= j < i + 1
        ensures seasons[j].seasonNumber != n
      {
        if j > 0 {
          assert seasons[j] == seasons[1..][j - 1];
        }
      }
      assert seasons[i + 1] == r.value && NoneNumberedBefore(seasons, n, i + 1);
    }
  }

  /** The episode numbers of the season numbered `n`: none when it is missing or has no list. */
  function EpisodeNumbers(seasons: seq<TvIssueWorkflow.Season>, n: int): seq<int>
  {
    var season := SeasonNumbered(seasons, n);
    var episodes := if season.Some? && season.value.episodes.Some? then season.value.episodes.value else [];
    seq(|episodes|, i requires 0 <= i < |episodes| => episodes[i].episodeNumber)
  }

  /** At most this many episodes are listed after the full-season entry. */
  const EpisodeLimit: nat := 24

  function EpisodeOption(episodeNumber: int, selectedEpisodeNumber: int): SelectOption
  {
    SelectOption("Episode " + IntToString(episodeNumber), IntToString(episodeNumber),
                 episodeNumber == selectedEpisodeNumber)
  }

  /** The entry for the whole season, the default when no positive episode is selected. */
  function FullSeasonOption(fullSeasonLabel: string, selectedEpisodeNumber: int): SelectOption
  {
    SelectOption(DiscordText.LimitStringSize(fullSeasonLabel, DiscordText.LabelLimit), "0", selectedEpisodeNumber <= 0)
  }

  /** Entries `1..` of `options` list `sorted` in order, one episode each. */
  predicate ListsEpisodes(options: seq<SelectOption>, sorted: seq<int>, selectedEpisodeNumber: int)
  {
    |options| <= |sorted| + 1
    && forall k :: 1 <= k < |options| ==> options[k] == EpisodeOption(sorted[k - 1], selectedEpisodeNumber)
  }

  /**
   * `BuildIssueEpisodeOptions`: nothing when the season is missing or has
   * no episodes; otherwise the full-season entry valued "0" and then the
   * first 24 episodes in ascending order, so never more than 25 entries.
   */
  method BuildIssueEpisodeOptions(seasons: seq<TvIssueWorkflow.Season>, selectedSeasonNumber: int,
                                  selectedEpisodeNumber: int, fullSeasonLabel: string)
    returns (options: seq<SelectOption>)
    ensures |options| <= EpisodeLimit + 1
    ensures options == [] <==> EpisodeNumbers(seasons, selectedSeasonNumber) == []
    ensures options != [] ==>
              var sorted := SortNumbers(EpisodeNumbers(seasons, selectedSeasonNumber));
              |options| == 1 + Min(|sorted|, EpisodeLimit)
              && options[0] == FullSeasonOption(fullSeasonLabel, selectedEpisodeNumber)
              && ListsEpisodes(options, sorted, selectedEpisodeNumber)
  {
    var numbers := EpisodeNumbers(seasons, selectedSeasonNumber);
    if |numbers| == 0 {
      return [];
    }
    var sorted := SortNumbers(numbers);
    var count := Min(|sorted|, EpisodeLimit);
    options := [FullSeasonOption(fullSeasonLabel, selectedEpisodeNumber)];
    var i := 0;
    while i < count
      invariant 0 <= i <= count
      invariant |options| == 1 + i && options[0] == FullSeasonOption(fullSeasonLabel, selectedEpisodeNumber)
      invariant ListsEpisodes(options, sorted, selectedEpisodeNumber)
    {
      ListsNextEpisode(options, sorted, selectedEpisodeNumber, i);
      options := options + [EpisodeOption(sorted[i], selectedEpisodeNumber)];
      i := i + 1;
    }
  }

  /** Appending the entry for `sorted[i]` after `i` listed episodes keeps them listed. */
  lemma ListsNextEpisode(options: seq<SelectOption>, sorted: seq<int>, selectedEpisodeNumber: int, i: nat)
    requires |options| == 1 + i && i < |sorted|
    requires ListsEpisodes(options, sorted, selectedEpisodeNumber)
    ensures ListsEpisodes(options + [EpisodeOption(sorted[i], selectedEpisodeNumber)], sorted, selectedEpisodeNumber)
  {
    var next := options + [EpisodeOption(sorted[i], selectedEpisodeNumber)];
    forall k | 1 <= k < |next| ensures next[k] == EpisodeOption(sorted[k - 1], selectedEpisodeNumber) {
      if k < |options| {
        assert next[k] == options[k];
      }
    }
  }

  /** The listed episodes come in ascending order and each is an episode of the season. */
  lemma EpisodeListAscending(seasons: seq<TvIssueWorkflow.Season>, selectedSeasonNumber: int, k: nat, l: nat)
    requires var sorted := SortNumbers(EpisodeNumbers(seasons, selectedSeasonNumber));
             k < l < Min(|sorted|, EpisodeLimit)
    ensures var sorted := SortNumbers(EpisodeNumbers(seasons, selectedSeasonNumber));
            sorted[k] <= sorted[l] && sorted[k] in EpisodeNumbers(seasons, selectedSeasonNumber)
  {
    var sorted := SortNumbers(EpisodeNumbers(seasons, selectedSeasonNumber));
    assert sorted[k] in multiset(sorted);
  }

  /** A season with at most 24 episodes lists every one of them. */
  lemma ShortSeasonListsEveryEpisode(seasons: seq<TvIssueWorkflow.Season>, selectedSeasonNumber: int, e: int)
    requires |EpisodeNumbers(seasons, selectedSeasonNumber)| <= EpisodeLimit
    requires e in EpisodeNumbers(seasons, selectedSeasonNumber)
    ensures var sorted := SortNumbers(EpisodeNumbers(seasons, selectedSeasonNumber));
            e in sorted[..Min(|sorted|, EpisodeLimit)]
  {
    var numbers := EpisodeNumbers(seasons, selectedSeasonNumber);
    var sorted := SortNumbers(numbers);
    assert e in multiset(numbers);
    assert e in multiset(sorted);
    assert sorted[..Min(|sorted|, EpisodeLimit)] == sorted;
  }
}
