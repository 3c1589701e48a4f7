/**
 * The select menus of the Discord user interfaces: the search lists of
 * movies, shows and artists, the season and episode lists of the TV issue
 * form, and the components of the issue forms. Each entry's value is the
 * `/`-separated token the chat bot's component handler reads back.
 *
 * Localised strings are parameters; a catalogue's issue types (a dictionary
 * from label to number) are a list of pairs in the dictionary's order.
 */
module SelectOptions {
  import opened Wrappers
  import opened Text
  import opened ComponentIds
  import opened DiscordText
  import ComponentIdRoundTrips
  import TvIssueWorkflow
  import opened MusicWorkflow

  /** At most this many search results are offered. */
  const SearchLimit: nat := 15

  // ------------------------------------------------------------ search lists

  datatype Movie = Movie(theMovieDbId: int, title: string, releaseDate: Option<string>)


  /** `MovieSelection`: the first 15 movies, labelled with their titles, valued `{category}/{tmdbId}`. */
  function MovieSearchOptions(categoryId: int, movies: seq<Movie>): (r: seq<SelectOption>)
    ensures |r| == Min(|movies|, SearchLimit)
    ensures forall k :: 0 <= k < |r| ==>
              r[k].value == SearchValue(categoryId, movies[k].theMovieDbId)
              && r[k].text == DiscordText.MovieTitle(movies[k].title, movies[k].releaseDate)
              && |r[k].text| <= DiscordText.LabelLimit && !r[k].isDefault
  {
    seq(Min(|movies|, SearchLimit), k requires 0 <= k < Min(|movies|, SearchLimit) =>
      SelectOption(DiscordText.MovieTitle(movies[k].title, movies[k].releaseDate),
                   SearchValue(categoryId, movies[k].theMovieDbId), false))
  }

  /** Picking the `k`-th movie of a request or issue list selects that movie in that category. */
  lemma MovieSearchOptionPicked(userId: nat, categoryId: int, movies: seq<Movie>, k: nat)
    requires userId <= UInt64Max && IsInt32(categoryId)
    requires k < |MovieSearchOptions(categoryId, movies)| && IsInt32(movies[k].theMovieDbId)
    ensures HandleComponent(MovieSearchId(ForRequest, userId, categoryId),
                            [MovieSearchOptions(categoryId, movies)[k].value], userId).outcome
            == Dispatched(SelectMovie(categoryId, movies[k].theMovieDbId))
    ensures HandleComponent(MovieSearchId(ForIssue, userId, categoryId),
                            [MovieSearchOptions(categoryId, movies)[k].value], userId).outcome
            == Dispatched(SelectMovieIssue(categoryId, movies[k].theMovieDbId, ""))
  {
    ComponentIdRoundTrips.MovieSearchRoundTrip(userId, categoryId, movies[k].theMovieDbId);
    ComponentIdRoundTrips.MovieIssueSearchRoundTrip(userId, categoryId, movies[k].theMovieDbId);
  }

  /** `TvShowSelection`: the first 15 shows, labelled with their titles, valued `{category}/{tvDbId}`. */
  function TvShowSearchOptions(categoryId: int, shows: seq<TvIssueWorkflow.SearchedTvShow>): (r: seq<SelectOption>)
    ensures |r| == Min(|shows|, SearchLimit)
    ensures forall k :: 0 <= k < |r| ==>
              r[k].value == SearchValue(categoryId, shows[k].tvDbId)
              && r[k].text == DiscordText.TvShowTitle(shows[k].title, shows[k].firstAired)
              && |r[k].text| <= DiscordText.LabelLimit && !r[k].isDefault
  {
    seq(Min(|shows|, SearchLimit), k requires 0 <= k < Min(|shows|, SearchLimit) =>
      SelectOption(DiscordText.TvShowTitle(shows[k].title, shows[k].firstAired),
                   SearchValue(categoryId, shows[k].tvDbId), false))
  }

  /** Picking the `k`-th show of a request or issue list selects that show in that category. */
  lemma TvShowSearchOptionPicked(userId: nat, categoryId: int, shows: seq<TvIssueWorkflow.SearchedTvShow>, k: nat)
    requires userId <= UInt64Max && IsInt32(categoryId)
    requires k < |TvShowSearchOptions(categoryId, shows)| && IsInt32(shows[k].tvDbId)
    ensures HandleComponent(TvSearchId(ForRequest, userId, categoryId),
                            [TvShowSearchOptions(categoryId, shows)[k].value], userId).outcome
            == Dispatched(SelectTvShow(categoryId, shows[k].tvDbId))
    ensures HandleComponent(TvSearchId(ForIssue, userId, categoryId),
                            [TvShowSearchOptions(categoryId, shows)[k].value], userId).outcome
            == Dispatched(SelectTvIssue(categoryId, shows[k].tvDbId, ""))
  {
    ComponentIdRoundTrips.TvSearchRoundTrip(userId, categoryId, shows[k].tvDbId);
    ComponentIdRoundTrips.TvIssueSearchRoundTrip(userId, categoryId, shows[k].tvDbId);
  }

  /** `ShowMusicArtistSelection`: the first 15 artists, labelled with their names, valued `{category}/{artistId}`. */
  function ArtistSearchOptions(categoryId: int, artists: seq<MusicArtist>): (r: seq<SelectOption>)
    ensures |r| == Min(|artists|, SearchLimit)
    ensures forall k :: 0 <= k < |r| ==>
              r[k].value == ArtistValue(categoryId, artists[k].artistId)
              && r[k].text == DiscordText.ArtistLabel(artists[k].artistName)
              && |r[k].text| <= DiscordText.LabelLimit && !r[k].isDefault
  {
    seq(Min(|artists|, SearchLimit), k requires 0 <= k < Min(|artists|, SearchLimit) =>
      SelectOption(DiscordText.ArtistLabel(artists[k].artistName), ArtistValue(categoryId, artists[k].artistId), false))
  }

  /** Picking the `k`-th artist selects that artist in that category. */
  lemma ArtistSearchOptionPicked(userId: nat, categoryId: int, artists: seq<MusicArtist>, k: nat)
    requires userId <= UInt64Max && IsInt32(categoryId)
    requires k < |ArtistSearchOptions(categoryId, artists)| && '/' !in artists[k].artistId
    ensures HandleComponent(ArtistSearchId(userId, categoryId),
                            [ArtistSearchOptions(categoryId, artists)[k].value], userId).outcome
            == Dispatched(SelectArtist(categoryId, artists[k].artistId))
  {
    ComponentIdRoundTrips.ArtistSearchRoundTrip(userId, categoryId, artists[k].artistId);
  }

  // ------------------------------------------------------ issue season list

  predicate HasSeasonZero(seasons: seq<TvIssueWorkflow.Season>)
  {
    exists i :: 0 <= i < |seasons| && seasons[i].seasonNumber == 0
  }

  /** The entry of one season in the issue form's season list. */
  function SeasonOption(season: TvIssueWorkflow.Season, selectedSeasonNumber: int, seasonLabel: int -> string,
                        allSeasonsFullyRequested: bool, words: DiscordText.SeasonWords): SelectOption
  {
    SelectOption(DiscordText.SeasonName(season.kind, seasonLabel(season.seasonNumber), season.requested,
                                        allSeasonsFullyRequested, words),
                 IntToString(season.seasonNumber), season.seasonNumber == selectedSeasonNumber)
  }

  /**
   * `BuildIssueSeasonOptions` (a missing season list is the empty one): an
   * "all seasons" entry valued "0" when no season is numbered 0, then one
   * entry per season, valued with its number; the selected number is the
   * default.
   */
  function IssueSeasonOptions(seasons: seq<TvIssueWorkflow.Season>, selectedSeasonNumber: int,
                              seasonLabel: int -> string, allSeasonsFullyRequested: bool,
                              words: DiscordText.SeasonWords): (r: seq<SelectOption>)
    ensures var head := if HasSeasonZero(seasons) then 0 else 1;
            |r| == |seasons| + head
            && (head == 1 ==> r[0] == SelectOption(DiscordText.LimitStringSize(words.allSeasons, DiscordText.LabelLimit),
                                                   "0", selectedSeasonNumber == 0))
            && r[head..] == SeasonEntries(seasons, selectedSeasonNumber, seasonLabel, allSeasonsFullyRequested, words)
  {
    var all := if HasSeasonZero(seasons) then []
               else [SelectOption(DiscordText.LimitStringSize(words.allSeasons, DiscordText.LabelLimit),
                                  "0", selectedSeasonNumber == 0)];
    var entries := SeasonEntries(seasons, selectedSeasonNumber, seasonLabel, allSeasonsFullyRequested, words);
    assert (all + entries)[|all|..] == entries;
    all + entries
  }

  /** `seasons.Select(...)`: one entry per season, in order. */
  function SeasonEntries(seasons: seq<TvIssueWorkflow.Season>, selectedSeasonNumber: int,
                         seasonLabel: int -> string, allSeasonsFullyRequested: bool,
                         words: DiscordText.SeasonWords): (r: seq<SelectOption>)
    ensures |r| == |seasons|
    ensures forall i :: 0 <= i < |seasons| ==>
              r[i].value == IntToString(seasons[i].seasonNumber)
              && (r[i].isDefault <==> seasons[i].seasonNumber == selectedSeasonNumber)
  {
    seq(|seasons|, i requires 0 <= i < |seasons| =>
      SeasonOption(seasons[i], selectedSeasonNumber, seasonLabel, allSeasonsFullyRequested, words))
  }

  /** A season's entry is the default exactly when its value is the selected number. */
  lemma EntryDefaultIffSelected(seasons: seq<TvIssueWorkflow.Season>, selectedSeasonNumber: int,
                                seasonLabel: int -> string, allSeasonsFullyRequested: bool,
                                words: DiscordText.SeasonWords, i: nat)
    requires i < |seasons|
    ensures var e := SeasonEntries(seasons, selectedSeasonNumber, seasonLabel, allSeasonsFullyRequested, words);
            e[i].isDefault <==> e[i].value == IntToString(selectedSeasonNumber)
  {
    var e := SeasonEntries(seasons, selectedSeasonNumber, seasonLabel, allSeasonsFullyRequested, words);
    if e[i].value == IntToString(selectedSeasonNumber) {
      IntToStringInjective(seasons[i].seasonNumber, selectedSeasonNumber);
    }
  }

  /** The season number entry `k` of the season list stands for: 0 for the "all seasons" entry. */
  function SeasonAt(seasons: seq<TvIssueWorkflow.Season>, k: nat): int
  {
    var head := if HasSeasonZero(seasons) then 0 else 1;
    if k < head || k - head >= |seasons| then 0 else seasons[k - head].seasonNumber
  }

  /** Entry `k` of the season list is valued with its season's number and is the default iff that is the selected one. */
  lemma IssueSeasonOptionAt(seasons: seq<TvIssueWorkflow.Season>, selectedSeasonNumber: int,
                            seasonLabel: int -> string, allSeasonsFullyRequested: bool,
                            words: DiscordText.SeasonWords, k: nat)
    requires k < |IssueSeasonOptions(seasons, selectedSeasonNumber, seasonLabel, allSeasonsFullyRequested, words)|
    ensures var r := IssueSeasonOptions(seasons, selectedSeasonNumber, seasonLabel, allSeasonsFullyRequested, words);
            r[k].value == IntToString(SeasonAt(seasons, k))
            && (r[k].isDefault <==> SeasonAt(seasons, k) == selectedSeasonNumber)
  {
    if HasSeasonZero(seasons) || k > 0 {
      EntryOptionAt(seasons, selectedSeasonNumber, seasonLabel, allSeasonsFullyRequested, words, k);
    } else {
      IntToStringZero();
    }
  }

  /** Past the "all seasons" entry, entry `k` is the entry of its season. */
  lemma EntryOptionAt(seasons: seq<TvIssueWorkflow.Season>, selectedSeasonNumber: int,
                      seasonLabel: int -> string, allSeasonsFullyRequested: bool,
                      words: DiscordText.SeasonWords, k: nat)
    requires k < |IssueSeasonOptions(seasons, selectedSeasonNumber, seasonLabel, allSeasonsFullyRequested, words)|
    requires HasSeasonZero(seasons) || k > 0
    ensures var r := IssueSeasonOptions(seasons, selectedSeasonNumber, seasonLabel, allSeasonsFullyRequested, words);
            r[k].value == IntToString(SeasonAt(seasons, k))
            && (r[k].isDefault <==> SeasonAt(seasons, k) == selectedSeasonNumber)
  {
    var r := IssueSeasonOptions(seasons, selectedSeasonNumber, seasonLabel, allSeasonsFullyRequested, words);
    var head := if HasSeasonZero(seasons) then 0 else 1;
    var e := SeasonEntries(seasons, selectedSeasonNumber, seasonLabel, allSeasonsFullyRequested, words);
    assert r[head..] == e;
    assert r[k] == e[k - head];
    assert SeasonAt(seasons, k) == seasons[k - head].seasonNumber;
  }

  /** An entry of the season list is the default exactly when its value is the selected number. */
  lemma SeasonDefaultIffSelected(seasons: seq<TvIssueWorkflow.Season>, selectedSeasonNumber: int,
                                 seasonLabel: int -> string, allSeasonsFullyRequested: bool,
                                 words: DiscordText.SeasonWords, k: nat)
    requires k < |IssueSeasonOptions(seasons, selectedSeasonNumber, seasonLabel, allSeasonsFullyRequested, words)|
    ensures var r := IssueSeasonOptions(seasons, selectedSeasonNumber, seasonLabel, allSeasonsFullyRequested, words);
            r[k].isDefault <==> r[k].value == IntToString(selectedSeasonNumber)
  {
    IssueSeasonOptionAt(seasons, selectedSeasonNumber, seasonLabel, allSeasonsFullyRequested, words, k);
    var r := IssueSeasonOptions(seasons, selectedSeasonNumber, seasonLabel, allSeasonsFullyRequested, words);
    if r[k].value == IntToString(selectedSeasonNumber) {
      IntToStringInjective(SeasonAt(seasons, k), selectedSeasonNumber);
    }
  }

  /**
   * With the corrected handler, picking a season from the issue form's
   * season list moves the form to that season, keeping the issue and the
   * episode the list's id carries.
   */
  lemma SeasonOptionPicked(userId: nat, categoryId: int, tvDbId: int, issue: string, episodeNumber: int,
                           seasons: seq<TvIssueWorkflow.Season>, selectedSeasonNumber: int,
                           seasonLabel: int -> string, allSeasonsFullyRequested: bool,
                           words: DiscordText.SeasonWords, k: nat)
    requires userId <= UInt64Max && '/' !in issue
    requires IsInt32(categoryId) && IsInt32(tvDbId) && IsInt32(episodeNumber)
    requires k < |IssueSeasonOptions(seasons, selectedSeasonNumber, seasonLabel, allSeasonsFullyRequested, words)|
    requires forall i :: 0 <= i < |seasons| ==> IsInt32(seasons[i].seasonNumber)
    ensures var r := IssueSeasonOptions(seasons, selectedSeasonNumber, seasonLabel, allSeasonsFullyRequested, words);
            HandleComponentFixed(TvIssueSeasonSelectId(userId, categoryId, tvDbId, issue, episodeNumber),
                                 [r[k].value], userId).outcome
            == Dispatched(SelectTvIssueLocation(categoryId, tvDbId, issue, SeasonAt(seasons, k), episodeNumber))
  {
    IssueSeasonOptionAt(seasons, selectedSeasonNumber, seasonLabel, allSeasonsFullyRequested, words, k);
    var n := SeasonAt(seasons, k);
    assert IsInt32(n);
    ComponentIdRoundTrips.FixedTvIssueSeasonList(userId, categoryId, tvDbId, issue, episodeNumber, n);
  }

  // --------------------------------------------------------- issue forms

  /** A rendered component: a select menu with its entries, or a button. */
  datatype Component = Select(customId: string, options: seq<SelectOption>) | Button(customId: string)

  /** The issue types a catalogue offers, label and number, in its order. */
  datatype IssueType = IssueType(name: string, value: int)

  /** The value of an entry of the TV issue-type list: the issue's number. */
  function IssueNumberValue(issue: int): string
  {
    IntToString(issue)
  }

  /**
   * The issue-type list: each type's label under the cap, valued by
   * `valueOf`; the type whose number is the selected issue is the default.
   */
  function IssueTypeOptions(issueTypes: seq<IssueType>, issue: string, valueOf: int -> string): (r: seq<SelectOption>)
    ensures |r| == |issueTypes|
    ensures forall k :: 0 <= k < |r| ==>
              r[k].value == valueOf(issueTypes[k].value) && |r[k].text| <= DiscordText.LabelLimit
              && (r[k].isDefault <==> IntToString(issueTypes[k].value) == issue)
  {
    seq(|issueTypes|, k requires 0 <= k < |issueTypes| =>
      SelectOption(DiscordText.LimitStringSize(issueTypes[k].name, DiscordText.LabelLimit),
                   valueOf(issueTypes[k].value), IntToString(issueTypes[k].value) == issue))
  }

  /** What the issue form shows: a not-found warning, or its components. */
  datatype Screen = WarnNotFound(title: string) | Form(components: seq<Component>)

  /** The select menus among a response's components, in order (`FilterComponents<DiscordSelectComponent>`). */
  function Selects(components: seq<Component>): (r: seq<Component>)
    ensures forall k :: 0 <= k < |r| ==> r[k].Select? && r[k] in components
    ensures forall k :: 0 <= k < |components| && components[k].Select? ==> components[k] in r
  {
    if components == [] then []
    else (if components[0].Select? then [components[0]] else []) + Selects(components[1..])
  }

  /**
   * `DisplayMovieIssueDetailsAsync`: the issue-type list of the movie, and
   * the submit button once an issue is selected; a searcher without issue
   * support gives the not-found warning. When the response being edited
   * (`shown`) holds more than one select, its first select, the movie
   * search list, is shown again before the issue list.
   */
  function MovieIssueForm(searcherReportsIssues: bool, issueTypes: seq<IssueType>, userId: nat,
                          categoryId: int, movieId: int, movieTitle: string, issue: string,
                          shown: seq<Component>): (r: Screen)
    ensures !searcherReportsIssues <==> r == WarnNotFound(movieTitle)
    ensures r.Form? ==>
              var carried := if |Selects(shown)| > 1 then 1 else 0;
              |r.components| == carried + (if issue != "" then 2 else 1)
              && r.components[carried].customId == MovieIssueSelectId(userId, categoryId, movieId)
              && (carried == 1 ==> r.components[0] == Selects(shown)[0])
    ensures r.Form? && issue != "" ==>
              r.components[|r.components| - 1] == Button(MovieIssueButtonId(userId, categoryId, movieId, issue))
  {
    if !searcherReportsIssues then WarnNotFound(movieTitle)
    else
      var previous := if |Selects(shown)| > 1 then [Selects(shown)[0]] else [];
      var select := Select(MovieIssueSelectId(userId, categoryId, movieId),
                           IssueTypeOptions(issueTypes, issue, v => MovieIssueValue(categoryId, movieId, v)));
      if issue != "" then Form(previous + [select, Button(MovieIssueButtonId(userId, categoryId, movieId, issue))])
      else Form(previous + [select])
  }

  /** Once an issue is picked, the movie form's button opens the issue modal for that movie and issue. */
  lemma MovieIssueButtonOpensModal(issueTypes: seq<IssueType>, userId: nat, categoryId: int, movieId: int,
                                   movieTitle: string, issue: string, shown: seq<Component>)
    requires userId <= UInt64Max && IsInt32(categoryId) && IsInt32(movieId) && issue != "" && '/' !in issue
    ensures var r := MovieIssueForm(true, issueTypes, userId, categoryId, movieId, movieTitle, issue, shown);
            HandleComponent(r.components[|r.components| - 1].customId, [], userId)
            == Handling(false, Dispatched(SendMovieIssueModal(categoryId, movieId, issue)))
  {
    ComponentIdRoundTrips.MovieIssueButtonRoundTrip(userId, categoryId, movieId, issue);
    ComponentIdRoundTrips.MovieIssueButtonNotAcknowledged(userId, categoryId, movieId, issue, []);
  }

  /** The issue form's selection when it is opened: season 0, episode -1, issue "0" when blank. */
  datatype IssueLocation = IssueLocation(seasonNumber: int, episodeNumber: int, issueValue: string)

  function IssueDefaults(issue: string, seasonNumber: Option<int>, episodeNumber: Option<int>): (r: IssueLocation)
    ensures r.seasonNumber == seasonNumber.GetOr(0) && r.episodeNumber == episodeNumber.GetOr(-1)
    ensures !IsBlank(r.issueValue)
    ensures !IsBlank(issue) ==> r.issueValue == issue
  {
    assert !IsWhiteSpace("0"[0]);
    IssueLocation(seasonNumber.GetOr(0), episodeNumber.GetOr(-1), if IsBlank(issue) then "0" else issue)
  }

  /**
   * `IsIssueTvShowSelector`: a select whose id starts with "TIRS" in any
   * case and that has an option valued by two `/`-fields, as the show
   * search list of an issue has.
   */
  predicate IsIssueShowSelector(c: Component)
  {
    c.Select? && StartsWith(LowerStr(c.customId), "tirs") &&
    exists k :: 0 <= k < |c.options| && |Split(c.options[k].value, '/')| == 2
  }

  /** The first of the response's selects that is the show search list of an issue, if any. */
  function PreviousShowSelector(selects: seq<Component>): (r: Option<Component>)
    ensures r.None? <==> forall k :: 0 <= k < |selects| ==> !IsIssueShowSelector(selects[k])
    ensures r.Some? ==> exists k :: 0 <= k < |selects| && selects[k] == r.value && IsIssueShowSelector(r.value)
                                    && forall j :: 0 <= j < k ==> !IsIssueShowSelector(selects[j])
  {
    if selects == [] then None
    else if IsIssueShowSelector(selects[0]) then Some(selects[0])
    else
      var r := PreviousShowSelector(selects[1..]);
      if r.Some? then
        var i :| 0 <= i < |selects[1..]| && selects[1..][i] == r.value && IsIssueShowSelector(r.value)
                 && forall j :: 0 <= j < i ==> !IsIssueShowSelector(selects[1..][j]);
        assert selects[i + 1] == r.value;
        r
      else r
  }

  /** The show list of a TV issue search is recognised as the one the issue form carries over. */
  lemma IssueSearchListCarried(userId: nat, categoryId: int, shows: seq<TvIssueWorkflow.SearchedTvShow>)
    requires |shows| > 0
    ensures IsIssueShowSelector(Select(TvSearchId(ForIssue, userId, categoryId), TvShowSearchOptions(categoryId, shows)))
  {
    var options := TvShowSearchOptions(categoryId, shows);
    ComponentIdRoundTrips.FieldsSplit([IntToString(categoryId), IntToString(shows[0].tvDbId)]);
    assert |Split(options[0].value, '/')| == 2;
    ComponentIdRoundTrips.LowHead(["TIRS", NatToString(userId), IntToString(categoryId)]);
    assert LowerStr("TIRS") == "tirs";
  }

  /**
   * Neither the request list of a TV search nor the issue-type list of the
   * form is carried over: the first does not start with "TIRS", and the
   * second's entries are single numbers.
   */
  lemma OtherListsNotCarried(userId: nat, categoryId: int, tvDbId: int, seasonNumber: int, episodeNumber: int,
                             shows: seq<TvIssueWorkflow.SearchedTvShow>, issueTypes: seq<IssueType>, issue: string)
    ensures !IsIssueShowSelector(Select(TvSearchId(ForRequest, userId, categoryId), TvShowSearchOptions(categoryId, shows)))
    ensures !IsIssueShowSelector(Select(TvIssueTypeSelectId(userId, categoryId, tvDbId, seasonNumber, episodeNumber),
                                        IssueTypeOptions(issueTypes, issue, IssueNumberValue)))
  {
    RequestListNotCarried(userId, categoryId, shows);
    IssueTypeListNotCarried(userId, categoryId, tvDbId, seasonNumber, episodeNumber, issueTypes, issue);
  }

  /** The request list of a TV search is not a show selector of the issue workflow. */
  lemma RequestListNotCarried(userId: nat, categoryId: int, shows: seq<TvIssueWorkflow.SearchedTvShow>)
    ensures !IsIssueShowSelector(Select(TvSearchId(ForRequest, userId, categoryId), TvShowSearchOptions(categoryId, shows)))
  {
    ComponentIdRoundTrips.LowHead(["TRS", NatToString(userId), IntToString(categoryId)]);
  }

  /** The issue-type list of the form is not a show selector: its entries are single numbers. */
  lemma IssueTypeListNotCarried(userId: nat, categoryId: int, tvDbId: int, seasonNumber: int, episodeNumber: int,
                                issueTypes: seq<IssueType>, issue: string)
    ensures !IsIssueShowSelector(Select(TvIssueTypeSelectId(userId, categoryId, tvDbId, seasonNumber, episodeNumber),
                                        IssueTypeOptions(issueTypes, issue, IssueNumberValue)))
  {
    var options := IssueTypeOptions(issueTypes, issue, IssueNumberValue);
    forall k | 0 <= k < |options|
      ensures |Split(options[k].value, '/')| == 1
    {
      SplitPlain(IntToString(issueTypes[k].value), '/');
    }
  }

  /**
   * `DisplayTvShowIssueDetailsAsync`: a missing issue searcher gives the
   * not-found warning; otherwise the form is the show search list again
   * when the response being edited (`shown`) has one, the season list when
   * it has entries, the episode list when a positive season is selected and
   * it has entries, the issue-type list, and the submit button once an
   * issue is selected. `seasonOptions` and `episodeOptions` are what the
   * two builders return for the selection.
   */
  function TvIssueForm(searcherReportsIssues: bool, showTitle: string, userId: nat, categoryId: int, tvDbId: int,
                       issue: string, seasonNumber: Option<int>, episodeNumber: Option<int>,
                       seasonOptions: seq<SelectOption>, episodeOptions: seq<SelectOption>,
                       issueTypes: seq<IssueType>, shown: seq<Component>): (r: Screen)
    ensures !searcherReportsIssues <==> r == WarnNotFound(showTitle)
    ensures r.Form? ==>
              var at := IssueDefaults(issue, seasonNumber, episodeNumber);
              var previous := PreviousShowSelector(Selects(shown));
              var seasonAt := if previous.Some? then 1 else 0;
              var episodeAt := seasonAt + (if seasonOptions != [] then 1 else 0);
              var typeAt := episodeAt + (if at.seasonNumber > 0 && episodeOptions != [] then 1 else 0);
              |r.components| == typeAt + 1 + (if IsBlank(issue) then 0 else 1)
              && (previous.Some? ==> r.components[0] == previous.value)
              && (seasonOptions != [] ==>
                    r.components[seasonAt]
                    == Select(TvIssueSeasonSelectId(userId, categoryId, tvDbId, at.issueValue, at.episodeNumber),
                              seasonOptions))
              && (at.seasonNumber > 0 && episodeOptions != [] ==>
                    r.components[episodeAt]
                    == Select(TvIssueEpisodeSelectId(userId, categoryId, tvDbId, at.issueValue, at.seasonNumber),
                              episodeOptions))
              && r.components[typeAt]
                 == Select(TvIssueTypeSelectId(userId, categoryId, tvDbId, at.seasonNumber, at.episodeNumber),
                           IssueTypeOptions(issueTypes, issue, IssueNumberValue))
              && (!IsBlank(issue) ==>
                    r.components[typeAt + 1]
                    == Button(TvIssueButtonId(userId, categoryId, tvDbId, issue, at.seasonNumber, at.episodeNumber)))
  {
    if !searcherReportsIssues then WarnNotFound(showTitle)
    else
      var at := IssueDefaults(issue, seasonNumber, episodeNumber);
      var previous := PreviousShowSelector(Selects(shown));
      var seasonList := if seasonOptions != [] then
                          Some(Select(TvIssueSeasonSelectId(userId, categoryId, tvDbId, at.issueValue, at.episodeNumber),
                                      seasonOptions))
                        else None;
      var episodeList := if at.seasonNumber > 0 && episodeOptions != [] then
                           Some(Select(TvIssueEpisodeSelectId(userId, categoryId, tvDbId, at.issueValue, at.seasonNumber),
                                       episodeOptions))
                         else None;
      var typeList := Select(TvIssueTypeSelectId(userId, categoryId, tvDbId, at.seasonNumber, at.episodeNumber),
                             IssueTypeOptions(issueTypes, issue, IssueNumberValue));
      var button := if IsBlank(issue) then None
                    else Some(Button(TvIssueButtonId(userId, categoryId, tvDbId, issue, at.seasonNumber, at.episodeNumber)));
      Form(Layout(previous, seasonList, episodeList, typeList, button))
  }

  /** The components that are present, in the order given; `typeList` is always present. */
  function Layout(showList: Option<Component>, seasonList: Option<Component>, episodeList: Option<Component>,
                  typeList: Component, button: Option<Component>): (r: seq<Component>)
    ensures var seasonAt := if showList.Some? then 1 else 0;
            var episodeAt := seasonAt + (if seasonList.Some? then 1 else 0);
            var typeAt := episodeAt + (if episodeList.Some? then 1 else 0);
            |r| == typeAt + 1 + (if button.Some? then 1 else 0)
            && (showList.Some? ==> r[0] == showList.value)
            && (seasonList.Some? ==> r[seasonAt] == seasonList.value)
            && (episodeList.Some? ==> r[episodeAt] == episodeList.value)
            && r[typeAt] == typeList
            && (button.Some? ==> r[typeAt + 1] == button.value)
  {
    Present(showList) + Present(seasonList) + Present(episodeList) + [typeList] + Present(button)
  }

  /** The component, when there is one. */
  function Present(c: Option<Component>): (r: seq<Component>)
    ensures |r| == (if c.Some? then 1 else 0) && (c.Some? ==> r[0] == c.value)
  {
    if c.Some? then [c.value] else []
  }

  /**
   * Picking entry `k` of the form's season list: the handler as written
   * fails on it, the corrected handler moves the form to that season with
   * the form's issue and episode.
   */
  lemma TvIssueFormSeasonList(showTitle: string, userId: nat, categoryId: int, tvDbId: int, issue: string,
                              seasonNumber: Option<int>, episodeNumber: Option<int>,
                              seasons: seq<TvIssueWorkflow.Season>, seasonLabel: int -> string,
                              allSeasonsFullyRequested: bool, words: DiscordText.SeasonWords,
                              episodeOptions: seq<SelectOption>, issueTypes: seq<IssueType>,
                              shown: seq<Component>, k: nat)
    requires userId <= UInt64Max && IsInt32(categoryId) && IsInt32(tvDbId) && '/' !in issue
    requires IsInt32(episodeNumber.GetOr(-1))
    requires forall i :: 0 <= i < |seasons| ==> IsInt32(seasons[i].seasonNumber)
    requires k < |IssueSeasonOptions(seasons, seasonNumber.GetOr(0), seasonLabel, allSeasonsFullyRequested, words)|
    ensures var at := IssueDefaults(issue, seasonNumber, episodeNumber);
            var r := TvIssueForm(true, showTitle, userId, categoryId, tvDbId, issue, seasonNumber, episodeNumber,
                                 IssueSeasonOptions(seasons, at.seasonNumber, seasonLabel, allSeasonsFullyRequested, words),
                                 episodeOptions, issueTypes, shown).components;
            var list := r[if PreviousShowSelector(Selects(shown)).Some? then 1 else 0];
            list.Select? && k < |list.options|
            && HandleComponent(list.customId, [list.options[k].value], userId).outcome == Failed
            && HandleComponentFixed(list.customId, [list.options[k].value], userId).outcome
               == Dispatched(SelectTvIssueLocation(categoryId, tvDbId, at.issueValue, SeasonAt(seasons, k), at.episodeNumber))
  {
    var at := IssueDefaults(issue, seasonNumber, episodeNumber);
    var options := IssueSeasonOptions(seasons, at.seasonNumber, seasonLabel, allSeasonsFullyRequested, words);
    assert '/' !in at.issueValue by {
      if IsBlank(issue) { assert at.issueValue == "0"; }
    }
    IssueSeasonOptionAt(seasons, at.seasonNumber, seasonLabel, allSeasonsFullyRequested, words, k);
    ComponentIdRoundTrips.TvIssueSeasonListFails(userId, categoryId, tvDbId, at.issueValue, at.episodeNumber,
                                                 SeasonAt(seasons, k));
    SeasonOptionPicked(userId, categoryId, tvDbId, at.issueValue, at.episodeNumber, seasons, at.seasonNumber,
                       seasonLabel, allSeasonsFullyRequested, words, k);
  }

  /**
   * The TV form's submit button carries the selected location, yet the
   * handler as written opens the modal without it; the corrected handler
   * opens it on that season and episode.
   */
  lemma TvIssueButtonLocation(showTitle: string, userId: nat, categoryId: int, tvDbId: int, issue: string,
                              seasonNumber: Option<int>, episodeNumber: Option<int>,
                              seasonOptions: seq<SelectOption>, episodeOptions: seq<SelectOption>,
                              issueTypes: seq<IssueType>, shown: seq<Component>)
    requires userId <= UInt64Max && IsInt32(categoryId) && IsInt32(tvDbId) && !IsBlank(issue) && '/' !in issue
    requires IsInt32(seasonNumber.GetOr(0)) && IsInt32(episodeNumber.GetOr(-1))
    ensures var r := TvIssueForm(true, showTitle, userId, categoryId, tvDbId, issue, seasonNumber, episodeNumber,
                                 seasonOptions, episodeOptions, issueTypes, shown).components;
            var at := IssueDefaults(issue, seasonNumber, episodeNumber);
            HandleComponent(r[|r| - 1].customId, [], userId).outcome
              == Dispatched(SendTvIssueModal(categoryId, tvDbId, issue, None, None))
            && HandleComponentFixed(r[|r| - 1].customId, [], userId).outcome
              == Dispatched(SendTvIssueModal(categoryId, tvDbId, issue, Some(at.seasonNumber), Some(at.episodeNumber)))
  {
    var at := IssueDefaults(issue, seasonNumber, episodeNumber);
    ComponentIdRoundTrips.TvIssueButtonRoundTrip(userId, categoryId, tvDbId, issue, at.seasonNumber, at.episodeNumber);
    ComponentIdRoundTrips.FixedTvIssueButton(userId, categoryId, tvDbId, issue, at.seasonNumber, at.episodeNumber);
  }
}
