/**
 * The TV issue workflow: finding the show an issue is about, shaping its
 * season list for the issue form, filling in the episodes of the chosen
 * season, and reading the issue form's key back when the form is submitted.
 *
 * The searcher, the requester and the user interface are not part of this
 * model: what the searcher returns is a parameter and every user-interface
 * call is a `Directive` value.
 */
module TvIssueWorkflow {
  import opened Wrappers
  import opened Text
  import ComponentIds

  // ------------------------------------------------------------- shows

  /** The three classes of season: every season, one numbered season, the seasons to come. */
  datatype SeasonKind = AllTvSeasons | NormalTvSeason | FutureTvSeasons

  datatype RequestedState = NotRequested | PartiallyRequested | FullyRequested

  datatype Episode = Episode(episodeNumber: int)

  /** A season of a show; `episodes` is `None` when the catalogue sent no list. */
  datatype Season = Season(kind: SeasonKind, seasonNumber: int, isAvailable: bool,
                           requested: RequestedState, episodes: Option<seq<Episode>>)

  /** The entry put in front of the seasons of a show with several seasons. */
  const AllSeasonsEntry: Season := Season(AllTvSeasons, 0, false, NotRequested, None)

  /** The show handed to the issue form; its season list is rewritten in place. */
  class TvShow {
    var tvDbId: int
    var title: string
    /** `IsMultiSeasons()`, which is defined outside this model. */
    var multiSeasons: bool
    var seasons: seq<Season>

    constructor (tvDbId: int, title: string, multiSeasons: bool, seasons: seq<Season>)
      ensures this.tvDbId == tvDbId && this.title == title
      ensures this.multiSeasons == multiSeasons && this.seasons == seasons
    {
      this.tvDbId := tvDbId;
      this.title := title;
      this.multiSeasons := multiSeasons;
      this.seasons := seasons;
    }

    /** The season shaping of `GetTvShowAsync`. */
    method ShapeSeasons(allSeasonsRestriction: bool)
      modifies this`seasons
      ensures seasons == ShapedSeasons(old(seasons), multiSeasons, allSeasonsRestriction)
    {
      if multiSeasons {
        if allSeasonsRestriction || |seasons| <= 24 {
          seasons := [AllSeasonsEntry] + seasons;
        } else {
          seasons := seasons[|seasons| - 25..];
        }
      }
    }

    /**
     * `EnsureSeasonEpisodesAsync`: `fetched` is what the Overseerr client
     * returns for the season, `None` when the searcher is another client.
     */
    method EnsureSeasonEpisodes(seasonNumber: Option<int>, fetched: Option<seq<Episode>>)
      modifies this`seasons
      ensures seasons == WithEpisodes(old(seasons), seasonNumber, fetched)
    {
      if seasonNumber.None? || seasonNumber.value <= 0 {
        return;
      }
      var i := 0;
      while i < |seasons| && !(seasons[i].kind == NormalTvSeason && seasons[i].seasonNumber == seasonNumber.value)
        invariant 0 <= i <= |seasons|
        invariant FirstNormalSeason(seasons, seasonNumber.value, 0) == FirstNormalSeason(seasons, seasonNumber.value, i)
        decreases |seasons| - i
      {
        i := i + 1;
      }
      if i == |seasons| || HasEpisodes(seasons[i]) {
        return;
      }
      if fetched.Some? {
        seasons := seasons[i := seasons[i].(episodes := fetched)];
      }
    }
  }

  /**
   * A show with several seasons gets the all-seasons entry in front when the
   * category allows every season or there are at most 24 seasons; otherwise
   * only its last 25 seasons are kept.
   */
  function ShapedSeasons(seasons: seq<Season>, multiSeasons: bool, allSeasonsRestriction: bool): (r: seq<Season>)
    ensures forall k :: 0 <= k < |r| ==> r[k] == AllSeasonsEntry || r[k] in seasons
    ensures multiSeasons && !allSeasonsRestriction ==> |r| <= 25
  {
    if !multiSeasons then seasons
    else if allSeasonsRestriction || |seasons| <= 24 then [AllSeasonsEntry] + seasons
    else seasons[|seasons| - 25..]
  }

  /** The index of the first numbered season with number `n`, searching from `from`. */
  function FirstNormalSeason(seasons: seq<Season>, n: int, from: nat): (r: Option<nat>)
    requires from <= |seasons|
    ensures r.Some? ==> from <= r.value < |seasons| && seasons[r.value].kind == NormalTvSeason
                        && seasons[r.value].seasonNumber == n
    ensures r.Some? ==> forall j :: from <= j < r.value ==>
                          !(seasons[j].kind == NormalTvSeason && seasons[j].seasonNumber == n)
    ensures r.None? ==> forall j :: from <= j < |seasons| ==>
                          !(seasons[j].kind == NormalTvSeason && seasons[j].seasonNumber == n)
    decreases |seasons| - from
  {
    if from == |seasons| then None
    else if seasons[from].kind == NormalTvSeason && seasons[from].seasonNumber == n then Some(from)
    else FirstNormalSeason(seasons, n, from + 1)
  }

  predicate HasEpisodes(s: Season)
  {
    s.episodes.Some? && |s.episodes.value| > 0
  }

  /**
   * The season list after the episodes of season `seasonNumber` are filled
   * in: only the first numbered season with that number changes, and only
   * when it has no episodes yet and the client could fetch them.
   */
  function WithEpisodes(seasons: seq<Season>, seasonNumber: Option<int>, fetched: Option<seq<Episode>>): (r: seq<Season>)
    ensures |r| == |seasons|
    ensures forall k :: 0 <= k < |seasons| ==>
              r[k] == seasons[k]
              || (seasonNumber.Some? && FirstNormalSeason(seasons, seasonNumber.value, 0) == Some(k)
                  && r[k] == seasons[k].(episodes := fetched))
    ensures forall k :: 0 <= k < |seasons| && HasEpisodes(seasons[k]) ==> r[k] == seasons[k]
  {
    if seasonNumber.None? || seasonNumber.value <= 0 then seasons
    else match FirstNormalSeason(seasons, seasonNumber.value, 0)
      case None => seasons
      case Some(i) =>
        if HasEpisodes(seasons[i]) || fetched.None? then seasons
        else seasons[i := seasons[i].(episodes := fetched)]
  }

  /** A show with several seasons and room for it gets exactly the all-seasons entry in front. */
  lemma ShapedSeasonsPrepends(seasons: seq<Season>, allSeasonsRestriction: bool)
    requires allSeasonsRestriction || |seasons| <= 24
    ensures var r := ShapedSeasons(seasons, true, allSeasonsRestriction);
      |r| == |seasons| + 1 && r[0].kind == AllTvSeasons && r[0].seasonNumber == 0
      && !r[0].isAvailable && r[0].requested == NotRequested && r[1..] == seasons
  {
    assert ([AllSeasonsEntry] + seasons)[1..] == seasons;
  }

  /** Otherwise the last 25 seasons are kept, in order. */
  lemma ShapedSeasonsKeepsLast(seasons: seq<Season>)
    requires |seasons| > 24
    ensures var r := ShapedSeasons(seasons, true, false);
      |r| == 25 && forall k :: 0 <= k < 25 ==> r[k] == seasons[|seasons| - 25 + k]
  {
  }

  /** Outside the all-seasons restriction a show never lists more than 25 seasons. */
  lemma ShapedSeasonsBound(seasons: seq<Season>, multiSeasons: bool)
    requires multiSeasons || |seasons| <= 25
    ensures |ShapedSeasons(seasons, multiSeasons, false)| <= 25
  {
  }

  /** Each guard of `EnsureSeasonEpisodesAsync` leaves the seasons as they are. */
  lemma WithEpisodesGuards(seasons: seq<Season>, seasonNumber: Option<int>, fetched: Option<seq<Episode>>)
    requires || seasonNumber.None?
             || seasonNumber.value <= 0
             || FirstNormalSeason(seasons, seasonNumber.value, 0).None?
             || HasEpisodes(seasons[FirstNormalSeason(seasons, seasonNumber.value, 0).value])
             || fetched.None?
    ensures WithEpisodes(seasons, seasonNumber, fetched) == seasons
  {
  }

  /** Otherwise the first numbered season with that number gets the fetched episodes, and nothing else changes. */
  lemma WithEpisodesFills(seasons: seq<Season>, n: int, episodes: seq<Episode>)
    requires n > 0 && FirstNormalSeason(seasons, n, 0).Some?
    requires !HasEpisodes(seasons[FirstNormalSeason(seasons, n, 0).value])
    ensures var r := WithEpisodes(seasons, Some(n), Some(episodes));
            var i := FirstNormalSeason(seasons, n, 0).value;
      |r| == |seasons| && r[i].episodes == Some(episodes) && r[i].seasonNumber == n && r[i].kind == NormalTvSeason
      && forall j :: 0 <= j < |seasons| && j != i ==> r[j] == seasons[j]
  {
  }

  // ------------------------------------------------------------- search

  datatype SearchedTvShow = SearchedTvShow(tvDbId: int, title: string, firstAired: Option<string>)

  /** The user-interface calls of the workflow. */
  datatype Directive =
    | WarnNoTvShowFound(name: string)
    | WarnNoTvShowFoundByTvDbId(tvDbId: int)
    | ShowTvShowIssueSelection(shows: seq<SearchedTvShow>)
    | DisplayTvShowIssueDetails(tvDbId: int, issue: string, seasonNumber: Option<int>, episodeNumber: Option<int>)
    | DisplayTvShowIssueModal(tvDbId: int, issue: string, seasonNumber: Option<int>, episodeNumber: Option<int>)

  /** The name the library is searched for: dots become spaces. */
  function LibraryQuery(name: string): (q: string)
    ensures |q| == |name| && '.' !in q
    ensures forall i :: 0 <= i < |name| && name[i] != '.' ==> q[i] == name[i]
  {
    ReplaceChar(name, '.', ' ')
  }

  /** What `HandleTvShowSelectionAsync` shows: the issue form with nothing chosen yet. */
  function ShowSelection(tvDbId: int): Directive
  {
    DisplayTvShowIssueDetails(tvDbId, "", None, None)
  }

  /**
   * `SearchTvShowLibraryAsync(name)`: `found` is what the issue searcher
   * returns for `LibraryQuery(name)`; a searcher without issue support is
   * warned about under the name as typed, an empty result under the query.
   */
  function SearchByName(issueSearcher: bool, name: string, found: seq<SearchedTvShow>): (r: seq<Directive>)
    ensures !issueSearcher ==> r == [WarnNoTvShowFound(name)]
    ensures issueSearcher && |found| == 0 ==> r == [WarnNoTvShowFound(LibraryQuery(name))]
    ensures issueSearcher && |found| == 1 ==> r == [ShowSelection(found[0].tvDbId)]
    ensures issueSearcher && |found| > 1 ==> r == [ShowTvShowIssueSelection(found)]
  {
    if !issueSearcher then [WarnNoTvShowFound(name)]
    else if |found| == 0 then [WarnNoTvShowFound(LibraryQuery(name))]
    else if |found| == 1 then [ShowSelection(found[0].tvDbId)]
    else [ShowTvShowIssueSelection(found)]
  }

  /** What the library lookup by id came back with. */
  datatype Lookup = Found(show: SearchedTvShow) | NotFound | LookupFailed

  /** `SearchTvShowLibraryAsync(tvDbId)`: every failure is the same warning. */
  function SearchById(issueSearcher: bool, tvDbId: int, lookup: Lookup): (r: Directive)
    ensures r.DisplayTvShowIssueDetails? <==> issueSearcher && lookup.Found?
    ensures r.DisplayTvShowIssueDetails? ==> r == ShowSelection(lookup.show.tvDbId)
    ensures !r.DisplayTvShowIssueDetails? ==> r == WarnNoTvShowFoundByTvDbId(tvDbId)
  {
    if !issueSearcher then WarnNoTvShowFoundByTvDbId(tvDbId)
    else match lookup
      case Found(show) => ShowSelection(show.tvDbId)
      case _ => WarnNoTvShowFoundByTvDbId(tvDbId)
  }

  /**
   * `HandleIssueTVSelectionAsync`: the show is shaped, the chosen season's
   * episodes filled in, and the issue form shown for the chosen location.
   */
  method HandleIssueSelection(show: TvShow, allSeasonsRestriction: bool, issue: string,
                              seasonNumber: Option<int>, episodeNumber: Option<int>,
                              fetched: Option<seq<Episode>>) returns (d: Directive)
    modifies show`seasons
    ensures show.seasons == WithEpisodes(ShapedSeasons(old(show.seasons), show.multiSeasons, allSeasonsRestriction),
                                         seasonNumber, fetched)
    ensures d == DisplayTvShowIssueDetails(show.tvDbId, issue, seasonNumber, episodeNumber)
  {
    show.ShapeSeasons(allSeasonsRestriction);
    show.EnsureSeasonEpisodes(seasonNumber, fetched);
    d := DisplayTvShowIssueDetails(show.tvDbId, issue, seasonNumber, episodeNumber);
  }

  /** `HandleIssueTvShowSendModalAsync`: the same preparation, then the issue text box. */
  method HandleSendModal(show: TvShow, allSeasonsRestriction: bool, issue: string,
                         seasonNumber: Option<int>, episodeNumber: Option<int>,
                         fetched: Option<seq<Episode>>) returns (d: Directive)
    modifies show`seasons
    ensures show.seasons == WithEpisodes(ShapedSeasons(old(show.seasons), show.multiSeasons, allSeasonsRestriction),
                                         seasonNumber, fetched)
    ensures d == DisplayTvShowIssueModal(show.tvDbId, issue, seasonNumber, episodeNumber)
  {
    show.ShapeSeasons(allSeasonsRestriction);
    show.EnsureSeasonEpisodes(seasonNumber, fetched);
    d := DisplayTvShowIssueModal(show.tvDbId, issue, seasonNumber, episodeNumber);
  }

  // ------------------------------------------------------------- submission

  /** What the issue form's key carries back. */
  datatype ModalKey = ModalKey(tvShowId: int, issue: string, seasonNumber: int, episodeNumber: int)

  /**
   * The key parse of `SubmitIssueTvShowModalReadAsync`: the show is field 3,
   * the issue field 4, the season and episode fields 5 and 6, each -1 when
   * the key is shorter. A missing field 3 or 4 or a malformed number throws.
   */
  function ParseModalKey(key: string): (r: Option<ModalKey>)
    ensures r.Some? ==> |Split(key, '/')| >= 5 && r.value.issue == Split(key, '/')[4]
    ensures r.Some? ==> ParseInt32(Split(key, '/')[3]) == Some(r.value.tvShowId)
  {
    var v := Split(key, '/');
    if |v| < 5 then None
    else
      var season := if |v| > 5 then ParseInt32(v[5]) else Some(-1);
      var episode := if |v| > 6 then ParseInt32(v[6]) else Some(-1);
      match (ParseInt32(v[3]), season, episode)
      case (Some(t), Some(s), Some(e)) => Some(ModalKey(t, v[4], s, e))
      case _ => None
  }

  lemma DecodeModalKey(key: string, fields: seq<string>, tvDbId: int, seasonNumber: int, episodeNumber: int)
    requires Split(key, '/') == fields && |fields| == 7
    requires IsInt32(tvDbId) && IsInt32(seasonNumber) && IsInt32(episodeNumber)
    requires fields[3] == IntToString(tvDbId) && fields[5] == IntToString(seasonNumber) && fields[6] == IntToString(episodeNumber)
    ensures ParseModalKey(key) == Some(ModalKey(tvDbId, fields[4], seasonNumber, episodeNumber))
  {
    ParseInt32RoundTrip(tvDbId);
    ParseInt32RoundTrip(seasonNumber);
    ParseInt32RoundTrip(episodeNumber);
  }

  /** The key written under the issue text box is read back with the same show, issue and location. */
  lemma ModalKeyRoundTrip(userId: nat, categoryId: int, tvDbId: int, issue: string,
                          seasonNumber: Option<int>, episodeNumber: Option<int>)
    requires '/' !in issue && IsInt32(tvDbId)
    requires IsInt32(seasonNumber.GetOr(-1)) && IsInt32(episodeNumber.GetOr(-1))
    ensures ParseModalKey(ComponentIds.TvIssueModalKey(userId, categoryId, tvDbId, issue, seasonNumber, episodeNumber))
            == Some(ModalKey(tvDbId, issue, seasonNumber.GetOr(-1), episodeNumber.GetOr(-1)))
  {
    var fields := ["TIRC", NatToString(userId), IntToString(categoryId), IntToString(tvDbId), issue,
                   IntToString(seasonNumber.GetOr(-1)), IntToString(episodeNumber.GetOr(-1))];
    SplitJoin(fields, '/');
    DecodeModalKey(ComponentIds.Fields(fields), fields, tvDbId, seasonNumber.GetOr(-1), episodeNumber.GetOr(-1));
  }

  /** The location line of a report: all seasons, a season, or an episode of a season. */
  function Location(seasonNumber: int, episodeNumber: int): (r: string)
    ensures '\n' !in r
    ensures r == "All Seasons" <==> seasonNumber == 0
  {
    assert IsWhiteSpace('\n');
    assert '\n' !in IntToString(seasonNumber) && '\n' !in IntToString(episodeNumber);
    assert seasonNumber != 0 ==> ("Season " + IntToString(seasonNumber))[0] != "All Seasons"[0];
    if seasonNumber == 0 then "All Seasons"
    else if episodeNumber > 0 then "Season " + IntToString(seasonNumber) + " Episode " + IntToString(episodeNumber)
    else "Season " + IntToString(seasonNumber)
  }

  /** `PrependIssueLocation`: the location line goes in front unless both numbers are -1 or less. */
  function PrependIssueLocation(description: string, seasonNumber: int, episodeNumber: int): (r: string)
    ensures seasonNumber <= -1 && episodeNumber <= -1 ==> r == description
    ensures !(seasonNumber <= -1 && episodeNumber <= -1) ==>
              r == Location(seasonNumber, episodeNumber) + "\n" + description
  {
    if seasonNumber <= -1 && episodeNumber <= -1 then description
    else Location(seasonNumber, episodeNumber) + "\n" + description
  }

  /** What became of a submitted issue form. */
  datatype IssueReport = IssueReport(tvShowId: int, issue: string, description: string)

  datatype Submission =
    | SubmitFailed
    | Completed(report: Option<IssueReport>, result: bool)

  /**
   * `SubmitIssueTvShowModalReadAsync` as written: the report is sent only when
   * the searcher supports issue requests, and through the requester, which
   * throws when the requester does not. `accepted` is the requester's answer.
   */
  function SubmitIssue(key: string, text: string, searcherReportsIssues: bool,
                       requesterReportsIssues: bool, accepted: bool): (r: Submission)
    ensures ParseModalKey(key).None? ==> r == SubmitFailed
    ensures r.Completed? && r.report.Some? ==>
              var k := ParseModalKey(key).value;
              r.report.value == IssueReport(k.tvShowId, k.issue, PrependIssueLocation(text, k.seasonNumber, k.episodeNumber))
              && r.result == accepted
    ensures r.Completed? ==> (r.report.Some? <==> searcherReportsIssues)
    ensures r.Completed? && r.report.None? ==> !r.result
  {
    match ParseModalKey(key)
    case None => SubmitFailed
    case Some(k) =>
      if !searcherReportsIssues then Completed(None, false)
      else if !requesterReportsIssues then SubmitFailed
      else Completed(Some(IssueReport(k.tvShowId, k.issue, PrependIssueLocation(text, k.seasonNumber, k.episodeNumber))), accepted)
  }

  /** A form opened without a location submits the user's text unchanged. */
  lemma UnlocatedReportKeepsText(userId: nat, categoryId: int, tvDbId: int, issue: string, text: string, accepted: bool)
    requires '/' !in issue && IsInt32(tvDbId)
    ensures SubmitIssue(ComponentIds.TvIssueModalKey(userId, categoryId, tvDbId, issue, None, None), text, true, true, accepted)
            == Completed(Some(IssueReport(tvDbId, issue, text)), accepted)
  {
    ModalKeyRoundTrip(userId, categoryId, tvDbId, issue, None, None);
  }

  /** A form opened on an episode reports that episode in front of the text. */
  lemma EpisodeReportLocated(userId: nat, categoryId: int, tvDbId: int, issue: string,
                             seasonNumber: int, episodeNumber: int, text: string, accepted: bool)
    requires '/' !in issue && IsInt32(tvDbId) && IsInt32(seasonNumber) && IsInt32(episodeNumber)
    requires seasonNumber > 0 && episodeNumber > 0
    ensures SubmitIssue(ComponentIds.TvIssueModalKey(userId, categoryId, tvDbId, issue, Some(seasonNumber), Some(episodeNumber)),
                        text, true, true, accepted)
            == Completed(Some(IssueReport(tvDbId, issue, "Season " + IntToString(seasonNumber) + " Episode "
                                          + IntToString(episodeNumber) + "\n" + text)), accepted)
  {
    ModalKeyRoundTrip(userId, categoryId, tvDbId, issue, Some(seasonNumber), Some(episodeNumber));
  }
}
