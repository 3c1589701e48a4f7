/**
 * The wizard token protocol: every Discord component the bot renders carries
 * a `/`-separated custom id (and, for a select menu, `/`-separated option
 * values) that holds the whole state of the conversation. The three user
 * interfaces write these ids; the component handler of the chat bot reads
 * them back, checks that the clicking user is the id's author and routes on
 * the id's prefix.
 */
module ComponentIds {
  import opened Wrappers
  import opened Text

  // ------------------------------------------------------------- encoders

  /** A `/`-separated id or option value. */
  function Fields(parts: seq<string>): string
  {
    Join(parts, "/")
  }

  /** Which wizard a search list belongs to: a request or an issue report. */
  datatype Purpose = ForRequest | ForIssue

  /** `{MRS|MIRS}/{user}/{category}`: the movie search list. */
  function MovieSearchId(purpose: Purpose, userId: nat, categoryId: int): string
  {
    if purpose.ForRequest? then Fields(["MRS", NatToString(userId), IntToString(categoryId)])
    else Fields(["MIRS", NatToString(userId), IntToString(categoryId)])
  }

  /** `{category}/{tmdbId}`: one entry of a movie or TV search list. */
  function SearchValue(categoryId: int, mediaId: int): string
  {
    Fields([IntToString(categoryId), IntToString(mediaId)])
  }

  /** `MRC/{user}/{category}/{tmdbId}`: the movie request button. */
  function MovieConfirmId(userId: nat, categoryId: int, movieId: int): string
  {
    Fields(["MRC", NatToString(userId), IntToString(categoryId), IntToString(movieId)])
  }

  /** `MIRS/{user}/{category}/{tmdbId}`: the movie issue-type list. */
  function MovieIssueSelectId(userId: nat, categoryId: int, movieId: int): string
  {
    Fields(["MIRS", NatToString(userId), IntToString(categoryId), IntToString(movieId)])
  }

  /** `{category}/{tmdbId}/{issue}`: one entry of the movie issue-type list. */
  function MovieIssueValue(categoryId: int, movieId: int, issue: int): string
  {
    Fields([IntToString(categoryId), IntToString(movieId), IntToString(issue)])
  }

  /** `MIRB/{user}/{category}/{tmdbId}/{issue}/Modal`: the issue submit button. */
  function MovieIssueButtonId(userId: nat, categoryId: int, movieId: int, issue: string): string
  {
    Fields(["MIRB", NatToString(userId), IntToString(categoryId), IntToString(movieId), issue, "Modal"])
  }

  /** `MNR/{user}/{tmdbId}`: the movie notify-me button. */
  function MovieNotifyId(userId: nat, movieId: int): string
  {
    Fields(["MNR", NatToString(userId), IntToString(movieId)])
  }

  /** `{TRS|TIRS}/{user}/{category}`: the TV search list. */
  function TvSearchId(purpose: Purpose, userId: nat, categoryId: int): string
  {
    if purpose.ForRequest? then Fields(["TRS", NatToString(userId), IntToString(categoryId)])
    else Fields(["TIRS", NatToString(userId), IntToString(categoryId)])
  }

  /** `TSS/{user}/{category}`: the season list of a TV request. */
  function TvSeasonSelectId(userId: nat, categoryId: int): string
  {
    Fields(["TSS", NatToString(userId), IntToString(categoryId)])
  }

  /** `{category}/{tvDbId}/{season}`: one entry of the season list. */
  function TvSeasonValue(categoryId: int, tvDbId: int, seasonNumber: int): string
  {
    Fields([IntToString(categoryId), IntToString(tvDbId), IntToString(seasonNumber)])
  }

  /** `TRC/{user}/{category}/{tvDbId}/{season}`: the TV request button. */
  function TvConfirmId(userId: nat, categoryId: int, tvDbId: int, seasonNumber: int): string
  {
    Fields(["TRC", NatToString(userId), IntToString(categoryId), IntToString(tvDbId), IntToString(seasonNumber)])
  }

  /**
   * `TNR/{user}/{tvDbId}/{kind}/{season}`: the TV notify-me button; `kind` is
   * the first letter of the season's class name.
   */
  function TvNotifyId(userId: nat, tvDbId: int, seasonKind: char, seasonNumber: int): string
  {
    Fields(["TNR", NatToString(userId), IntToString(tvDbId), [seasonKind], IntToString(seasonNumber)])
  }

  /** `TIRSS/{user}/{category}/{tvDbId}/{issue}/{episode}`: the season list of a TV issue. */
  function TvIssueSeasonSelectId(userId: nat, categoryId: int, tvDbId: int, issue: string, episodeNumber: int): string
  {
    Fields(["TIRSS", NatToString(userId), IntToString(categoryId), IntToString(tvDbId), issue, IntToString(episodeNumber)])
  }

  /** `TIRSE/{user}/{category}/{tvDbId}/{issue}/{season}`: the episode list of a TV issue. */
  function TvIssueEpisodeSelectId(userId: nat, categoryId: int, tvDbId: int, issue: string, seasonNumber: int): string
  {
    Fields(["TIRSE", NatToString(userId), IntToString(categoryId), IntToString(tvDbId), issue, IntToString(seasonNumber)])
  }

  /** `TIRS/{user}/{category}/{tvDbId}/{season}/{episode}`: the issue-type list of a TV issue. */
  function TvIssueTypeSelectId(userId: nat, categoryId: int, tvDbId: int, seasonNumber: int, episodeNumber: int): string
  {
    Fields(["TIRS", NatToString(userId), IntToString(categoryId), IntToString(tvDbId), IntToString(seasonNumber), IntToString(episodeNumber)])
  }

  /** `TIRB/{user}/{category}/{tvDbId}/{issue}/{season}/{episode}/Modal`: the TV issue submit button. */
  function TvIssueButtonId(userId: nat, categoryId: int, tvDbId: int, issue: string, seasonNumber: int, episodeNumber: int): string
  {
    Fields(["TIRB", NatToString(userId), IntToString(categoryId), IntToString(tvDbId), issue,
            IntToString(seasonNumber), IntToString(episodeNumber), "Modal"])
  }

  /**
   * `TIRC/{user}/{category}/{tvDbId}/{issue}/{season}/{episode}`: the key of
   * the issue text box, an absent season or episode written as -1.
   */
  function TvIssueModalKey(userId: nat, categoryId: int, tvDbId: int, issue: string,
                           seasonNumber: Option<int>, episodeNumber: Option<int>): string
  {
    Fields(["TIRC", NatToString(userId), IntToString(categoryId), IntToString(tvDbId), issue,
            IntToString(seasonNumber.GetOr(-1)), IntToString(episodeNumber.GetOr(-1))])
  }

  /** `MuRSA/{user}/{category}`: the artist search list. */
  function ArtistSearchId(userId: nat, categoryId: int): string
  {
    Fields(["MuRSA", NatToString(userId), IntToString(categoryId)])
  }

  /** `{category}/{artistId}`: one entry of the artist search list. */
  function ArtistValue(categoryId: int, artistId: string): string
  {
    Fields([IntToString(categoryId), artistId])
  }

  /** `MuRCA/{user}/{category}/{artistId}`: the artist request button. */
  function ArtistConfirmId(userId: nat, categoryId: int, artistId: string): string
  {
    Fields(["MuRCA", NatToString(userId), IntToString(categoryId), artistId])
  }

  /** `MuNR/{user}/{artistId}`: the artist notify-me button. */
  function ArtistNotifyId(userId: nat, artistId: string): string
  {
    Fields(["MuNR", NatToString(userId), artistId])
  }

  /** The id of every button that ends a conversation (success, denied, notified). */
  const TerminalId: string := "0/1/0"

  // ------------------------------------------------------------- the handler

  /** The workflow call the handler makes. */
  datatype Action =
    | SelectMovie(categoryId: int, movieId: int)
    | RequestMovie(categoryId: int, movieId: int)
    | SelectMovieIssue(categoryId: int, movieId: int, issue: string)
    | SendMovieIssueModal(categoryId: int, movieId: int, issue: string)
    | NotifyMovie(userId: string, movieId: int)
    | SelectTvShow(categoryId: int, tvDbId: int)
    | SelectTvSeason(categoryId: int, tvDbId: int, seasonNumber: int)
    | RequestTvSeason(categoryId: int, tvDbId: int, seasonNumber: int)
    | SelectTvIssue(categoryId: int, tvDbId: int, issue: string)
    | SelectTvIssueLocation(categoryId: int, tvDbId: int, issue: string, seasonNumber: int, episodeNumber: int)
    | SendTvIssueModal(categoryId: int, tvDbId: int, issue: string, season: Option<int>, episode: Option<int>)
    | NotifyTv(userId: string, tvDbId: int, seasonKind: string, seasonNumber: int)
    | SelectArtist(categoryId: int, artistId: string)
    | RequestArtist(categoryId: int, artistId: string)
    | NotifyArtist(userId: string, artistId: string)

  /**
   * What became of an interaction: a workflow call, nothing at all, or an
   * exception (a failed parse, a missing field, more than one selected value)
   * that the handler turns into the error reply.
   */
  datatype Outcome = Dispatched(action: Action) | Ignored | Failed

  /** `acknowledged`: the update response sent first (not for modal buttons). */
  datatype Handling = Handling(acknowledged: bool, outcome: Outcome)

  /** The branch an id's prefix selects. */
  datatype Kind =
    | MovieSearch | MovieConfirm | MovieIssueSelect | MovieIssueButton | MovieNotify
    | TvSearch | TvSeasonSelect | TvConfirm | TvIssueSelect | TvIssueButton | TvNotify
    | ArtistSearch | ArtistConfirm | ArtistNotify | Unrouted

  /** A prefix test of two to five characters, character by character. */
  lemma StartsWithChars(s: string)
    ensures forall p {:trigger StartsWith(s, p)} :: |p| == 2 ==>
              (StartsWith(s, p) <==> |s| >= 2 && s[0] == p[0] && s[1] == p[1])
    ensures forall p {:trigger StartsWith(s, p)} :: |p| == 3 ==>
              (StartsWith(s, p) <==> |s| >= 3 && s[0] == p[0] && s[1] == p[1] && s[2] == p[2])
    ensures forall p {:trigger StartsWith(s, p)} :: |p| == 4 ==>
              (StartsWith(s, p) <==> |s| >= 4 && s[0] == p[0] && s[1] == p[1] && s[2] == p[2] && s[3] == p[3])
    ensures forall p {:trigger StartsWith(s, p)} :: |p| == 5 ==>
              (StartsWith(s, p) <==> |s| >= 5 && s[0] == p[0] && s[1] == p[1] && s[2] == p[2] && s[3] == p[3] && s[4] == p[4])
  {
    forall p | 2 <= |p| <= 5
      ensures StartsWith(s, p) <==> |p| <= |s| && forall i :: 0 <= i < |p| ==> s[i] == p[i]
    {
      if |p| <= |s| && forall i :: 0 <= i < |p| ==> s[i] == p[i] {
        assert s[..|p|] == p;
      }
    }
  }

  /** The prefix of the ids each branch serves. */
  function Prefix(k: Kind): string
  {
    match k
    case MovieSearch => "mrs"
    case MovieConfirm => "mrc"
    case MovieIssueSelect => "mirs"
    case MovieIssueButton => "mirb"
    case MovieNotify => "mnr"
    case TvSearch => "trs"
    case TvSeasonSelect => "tss"
    case TvConfirm => "trc"
    case TvIssueSelect => "tirs"
    case TvIssueButton => "tirb"
    case TvNotify => "tnr"
    case ArtistSearch => "mursa"
    case ArtistConfirm => "murca"
    case ArtistNotify => "munr"
    case Unrouted => ""
  }

  /**
   * The prefix tests of the handler and its branch handlers, in their order,
   * on the lower-cased id. No branch's prefix extends another's, so however
   * the tests are ordered, an id goes to the branch whose prefix it has, and
   * is unrouted when it has none.
   */
  function KindOf(low: string): (r: Kind)
    ensures r != Unrouted ==> StartsWith(low, Prefix(r))
  {
    if StartsWith(low, "mr") then
      (if StartsWith(low, "mrs") then MovieSearch else if StartsWith(low, "mrc") then MovieConfirm else Unrouted)
    else if StartsWith(low, "mir") then
      (if StartsWith(low, "mirs") then MovieIssueSelect else if StartsWith(low, "mirb") then MovieIssueButton else Unrouted)
    else if StartsWith(low, "mnr") then MovieNotify
    else if StartsWith(low, "tr") || StartsWith(low, "ts") then
      (if StartsWith(low, "trs") then TvSearch
       else if StartsWith(low, "tss") then TvSeasonSelect
       else if StartsWith(low, "trc") then TvConfirm
       else Unrouted)
    else if StartsWith(low, "tir") then
      (if StartsWith(low, "tirs") then TvIssueSelect else if StartsWith(low, "tirb") then TvIssueButton else Unrouted)
    else if StartsWith(low, "tnr") then TvNotify
    else if StartsWith(low, "mur") then
      (if StartsWith(low, "mursa") then ArtistSearch else if StartsWith(low, "murca") then ArtistConfirm else Unrouted)
    else if StartsWith(low, "munr") then ArtistNotify
    else Unrouted
  }

  /** An id with a branch's prefix goes to that branch: no branch's prefix extends another's. */
  lemma KindOfByPrefix(low: string, k: Kind)
    requires k != Unrouted && StartsWith(low, Prefix(k))
    ensures KindOf(low) == k
  {
    match k {
      case MovieSearch => MovieKindByPrefix(low, k);
      case MovieConfirm => MovieKindByPrefix(low, k);
      case MovieIssueSelect => MovieKindByPrefix(low, k);
      case MovieIssueButton => MovieKindByPrefix(low, k);
      case MovieNotify => MovieKindByPrefix(low, k);
      case TvSearch => TvKindByPrefix(low, k);
      case TvSeasonSelect => TvKindByPrefix(low, k);
      case TvConfirm => TvKindByPrefix(low, k);
      case TvIssueSelect => TvKindByPrefix(low, k);
      case TvIssueButton => TvKindByPrefix(low, k);
      case TvNotify => TvKindByPrefix(low, k);
      case ArtistSearch => ArtistKindByPrefix(low, k);
      case ArtistConfirm => ArtistKindByPrefix(low, k);
      case ArtistNotify => ArtistKindByPrefix(low, k);
    }
  }

  /** `KindOfByPrefix` for the movie branches. */
  lemma MovieKindByPrefix(low: string, k: Kind)
    requires k.MovieSearch? || k.MovieConfirm? || k.MovieIssueSelect? || k.MovieIssueButton? || k.MovieNotify?
    requires StartsWith(low, Prefix(k))
    ensures KindOf(low) == k
  {
    StartsWithChars(low);
    var p := Prefix(k);
    assert low[0] == p[0] && low[1] == p[1] && low[2] == p[2];
    if k.MovieIssueSelect? || k.MovieIssueButton? {
      assert low[3] == p[3];
    }
  }

  /** `KindOfByPrefix` for the TV branches. */
  lemma TvKindByPrefix(low: string, k: Kind)
    requires k.TvSearch? || k.TvSeasonSelect? || k.TvConfirm? || k.TvIssueSelect? || k.TvIssueButton? || k.TvNotify?
    requires StartsWith(low, Prefix(k))
    ensures KindOf(low) == k
  {
    StartsWithChars(low);
    var p := Prefix(k);
    assert low[0] == p[0] && low[1] == p[1] && low[2] == p[2];
    if k.TvIssueSelect? || k.TvIssueButton? {
      assert low[3] == p[3];
    }
  }

  /** `KindOfByPrefix` for the music branches. */
  lemma ArtistKindByPrefix(low: string, k: Kind)
    requires k.ArtistSearch? || k.ArtistConfirm? || k.ArtistNotify?
    requires StartsWith(low, Prefix(k))
    ensures KindOf(low) == k
  {
    StartsWithChars(low);
    var p := Prefix(k);
    assert low[0] == p[0] && low[1] == p[1] && low[2] == p[2] && low[3] == p[3];
    if !k.ArtistNotify? {
      assert low[4] == p[4];
    }
  }

  function Last(fields: seq<string>): string
    requires |fields| >= 1
  {
    fields[|fields| - 1]
  }

  /** Two `int.Parse` calls; `None` when either throws. */
  function Ints2(a: string, b: string): Option<(int, int)>
  {
    if ParseInt32(a).Some? && ParseInt32(b).Some? then Some((ParseInt32(a).value, ParseInt32(b).value)) else None
  }

  function Ints3(a: string, b: string, c: string): Option<(int, int, int)>
  {
    if ParseInt32(a).Some? && ParseInt32(b).Some? && ParseInt32(c).Some? then
      Some((ParseInt32(a).value, ParseInt32(b).value, ParseInt32(c).value))
    else None
  }

  /** `e.Values.Single()` of a select menu: none, exactly one, or more (which throws). */
  datatype Selection = NoneSelected | OneSelected(value: string) | ManySelected

  function SelectionOf(values: seq<string>): Selection
  {
    if |values| == 0 then NoneSelected else if |values| > 1 then ManySelected else OneSelected(values[0])
  }

  // Select-menu branches: nothing selected dispatches nothing.

  function SelectMovieFrom(values: seq<string>): Outcome
  {
    match SelectionOf(values)
    case NoneSelected => Ignored
    case ManySelected => Failed
    case OneSelected(v) =>
      var f := Split(v, '/');
      match Ints2(f[0], Last(f)) case Some((c, m)) => Dispatched(SelectMovie(c, m)) case None => Failed
  }

  function SelectMovieIssueFrom(values: seq<string>): Outcome
  {
    match SelectionOf(values)
    case NoneSelected => Ignored
    case ManySelected => Failed
    case OneSelected(v) =>
      var f := Split(v, '/');
      if |f| < 2 then Failed
      else match Ints2(f[0], f[1])
        case Some((c, m)) => Dispatched(SelectMovieIssue(c, m, if |f| >= 3 then f[2] else ""))
        case None => Failed
  }

  function SelectTvShowFrom(values: seq<string>): Outcome
  {
    match SelectionOf(values)
    case NoneSelected => Ignored
    case ManySelected => Failed
    case OneSelected(v) =>
      var f := Split(v, '/');
      match Ints2(f[0], Last(f)) case Some((c, t)) => Dispatched(SelectTvShow(c, t)) case None => Failed
  }

  function SelectTvSeasonFrom(values: seq<string>): Outcome
  {
    match SelectionOf(values)
    case NoneSelected => Ignored
    case ManySelected => Failed
    case OneSelected(v) =>
      var f := Split(v, '/');
      if |f| < 3 then Failed
      else match Ints3(f[0], f[1], f[2]) case Some((c, t, s)) => Dispatched(SelectTvSeason(c, t, s)) case None => Failed
  }

  /** As written: the selected value must hold at least a category and a show. */
  function SelectTvIssueFrom(values: seq<string>): Outcome
  {
    match SelectionOf(values)
    case NoneSelected => Ignored
    case ManySelected => Failed
    case OneSelected(v) =>
      var f := Split(v, '/');
      if |f| < 2 then Failed
      else match Ints2(f[0], f[1])
        case Some((c, t)) => Dispatched(SelectTvIssue(c, t, if |f| >= 3 then f[2] else ""))
        case None => Failed
  }

  function SelectArtistFrom(values: seq<string>): Outcome
  {
    match SelectionOf(values)
    case NoneSelected => Ignored
    case ManySelected => Failed
    case OneSelected(v) =>
      var f := Split(v, '/');
      match ParseInt32(f[0]) case Some(c) => Dispatched(SelectArtist(c, Last(f))) case None => Failed
  }

  // Button branches, on the id's own fields.

  function RequestMovieFrom(fields: seq<string>): Outcome
    requires |fields| >= 1
  {
    if |fields| < 3 then Failed
    else match Ints2(fields[2], Last(fields)) case Some((c, m)) => Dispatched(RequestMovie(c, m)) case None => Failed
  }

  function SendMovieIssueModalFrom(fields: seq<string>): Outcome
  {
    if |fields| < 5 then Failed
    else match Ints2(fields[2], fields[3])
      case Some((c, m)) => Dispatched(SendMovieIssueModal(c, m, fields[4]))
      case None => Failed
  }

  function NotifyMovieFrom(fields: seq<string>): Outcome
    requires |fields| >= 2
  {
    match ParseInt32(Last(fields)) case Some(m) => Dispatched(NotifyMovie(fields[1], m)) case None => Failed
  }

  function RequestTvSeasonFrom(fields: seq<string>): Outcome
  {
    if |fields| < 5 then Failed
    else match Ints3(fields[2], fields[3], fields[4])
      case Some((c, t, s)) => Dispatched(RequestTvSeason(c, t, s))
      case None => Failed
  }

  /** As written: fields 2 to 4 only, so the season and episode are not passed on. */
  function SendTvIssueModalFrom(fields: seq<string>): Outcome
  {
    if |fields| < 5 then Failed
    else match Ints2(fields[2], fields[3])
      case Some((c, t)) => Dispatched(SendTvIssueModal(c, t, fields[4], None, None))
      case None => Failed
  }

  function NotifyTvFrom(fields: seq<string>): Outcome
  {
    if |fields| < 5 then Failed
    else match Ints2(fields[2], fields[4])
      case Some((t, s)) => Dispatched(NotifyTv(fields[1], t, fields[3], s))
      case None => Failed
  }

  function RequestArtistFrom(fields: seq<string>): Outcome
    requires |fields| >= 1
  {
    if |fields| < 3 then Failed
    else match ParseInt32(fields[2]) case Some(c) => Dispatched(RequestArtist(c, Last(fields))) case None => Failed
  }

  function NotifyArtistFrom(fields: seq<string>): Outcome
    requires |fields| >= 2
  {
    Dispatched(NotifyArtist(fields[1], Last(fields)))
  }

  /** The workflow calls branch `k` makes. */
  predicate Serves(k: Kind, a: Action)
  {
    match k
    case MovieSearch => a.SelectMovie?
    case MovieConfirm => a.RequestMovie?
    case MovieIssueSelect => a.SelectMovieIssue?
    case MovieIssueButton => a.SendMovieIssueModal?
    case MovieNotify => a.NotifyMovie?
    case TvSearch => a.SelectTvShow?
    case TvSeasonSelect => a.SelectTvSeason?
    case TvConfirm => a.RequestTvSeason?
    case TvIssueSelect => a.SelectTvIssue? || a.SelectTvIssueLocation?
    case TvIssueButton => a.SendTvIssueModal?
    case TvNotify => a.NotifyTv?
    case ArtistSearch => a.SelectArtist?
    case ArtistConfirm => a.RequestArtist?
    case ArtistNotify => a.NotifyArtist?
    case Unrouted => false
  }

  /** The branches for select menus, which read the selected value rather than the id. */
  predicate IsSelectMenu(k: Kind)
  {
    k.MovieSearch? || k.MovieIssueSelect? || k.TvSearch? || k.TvSeasonSelect? || k.TvIssueSelect? || k.ArtistSearch?
  }

  /**
   * The branch selected by the id's prefix: it calls only its own workflow,
   * and does nothing exactly when the id is unrouted or a select menu has
   * nothing selected (every other miss throws).
   */
  function Route(kind: Kind, fields: seq<string>, values: seq<string>): (r: Outcome)
    requires |fields| >= 2
    ensures r.Dispatched? ==> Serves(kind, r.action)
    ensures r.Ignored? <==> kind == Unrouted || (IsSelectMenu(kind) && values == [])
  {
    match kind
    case MovieSearch => SelectMovieFrom(values)
    case MovieConfirm => RequestMovieFrom(fields)
    case MovieIssueSelect => SelectMovieIssueFrom(values)
    case MovieIssueButton => SendMovieIssueModalFrom(fields)
    case MovieNotify => NotifyMovieFrom(fields)
    case TvSearch => SelectTvShowFrom(values)
    case TvSeasonSelect => SelectTvSeasonFrom(values)
    case TvConfirm => RequestTvSeasonFrom(fields)
    case TvIssueSelect => SelectTvIssueFrom(values)
    case TvIssueButton => SendTvIssueModalFrom(fields)
    case TvNotify => NotifyTvFrom(fields)
    case ArtistSearch => SelectArtistFrom(values)
    case ArtistConfirm => RequestArtistFrom(fields)
    case ArtistNotify => NotifyArtistFrom(fields)
    case Unrouted => Ignored
  }

  /**
   * The author check: the second field must parse as an unsigned 64-bit id
   * (a missing or malformed one throws) and must be the clicking user's.
   */
  function AuthorCheck(fields: seq<string>, userId: nat, routed: Outcome): (r: Outcome)
    ensures r.Dispatched? ==> |fields| >= 2 && ParseUInt64(fields[1]) == Some(userId as int)
    ensures |fields| >= 2 && ParseUInt64(fields[1]).Some? && ParseUInt64(fields[1]).value != userId ==> r.Ignored?
    ensures |fields| >= 2 && ParseUInt64(fields[1]) == Some(userId as int) ==> r == routed
  {
    if |fields| < 2 then Failed
    else match ParseUInt64(fields[1])
      case None => Failed
      case Some(author) => if author == userId then routed else Ignored
  }

  /**
   * The component handler as written, for a click by `userId` on the
   * component with custom id `id` and selected `values`.
   */
  function HandleComponent(id: string, values: seq<string>, userId: nat): (h: Handling)
    ensures h.outcome.Dispatched? ==>
              |Split(id, '/')| >= 2 && ParseUInt64(Split(id, '/')[1]) == Some(userId as int)
  {
    var fields := Split(id, '/');
    var low := LowerStr(id);
    Handling(!Contains(low, "modal"),
             AuthorCheck(fields, userId, if |fields| >= 2 then Route(KindOf(low), fields, values) else Failed))
  }

  // ------------------------------------------------------------- correction

  /**
   * The TV issue lists that carry the rest of the issue's location in their
   * id: the season list (`tirss`), the episode list (`tirse`) and the
   * issue-type list (`tirs` with six fields). The selected value is the one
   * missing season, episode or issue.
   */
  predicate IsTvIssueLocationList(low: string, fields: seq<string>)
  {
    |fields| >= 6 && StartsWith(low, "tirs")
  }

  function FromLocationList(low: string, fields: seq<string>, v: string): Outcome
    requires |fields| >= 6
  {
    var issue := if StartsWith(low, "tirss") || StartsWith(low, "tirse") then fields[4] else v;
    var season := if StartsWith(low, "tirss") then v else if StartsWith(low, "tirse") then fields[5] else fields[4];
    var episode := if StartsWith(low, "tirss") then fields[5] else if StartsWith(low, "tirse") then v else fields[5];
    match (Ints2(fields[2], fields[3]), Ints2(season, episode))
    case (Some((c, t)), Some((s, e))) => Dispatched(SelectTvIssueLocation(c, t, issue, s, e))
    case _ => Failed
  }

  /** The TV issue submit button with the season and episode it carries in fields 5 and 6. */
  function FromTvIssueButton(fields: seq<string>): Outcome
    requires |fields| >= 7
  {
    match (Ints2(fields[2], fields[3]), Ints2(fields[5], fields[6]))
    case (Some((c, t)), Some((s, e))) => Dispatched(SendTvIssueModal(c, t, fields[4], Some(s), Some(e)))
    case _ => Failed
  }

  /**
   * The routing with the TV issue location read back from the ids that carry
   * it: the TV issue lists pass on the location, the TV issue button with
   * seven fields passes on its season and episode, and every other id is
   * routed as written.
   */
  function RouteFixed(low: string, fields: seq<string>, values: seq<string>): (r: Outcome)
    requires |fields| >= 2
    ensures r.Dispatched? ==> Serves(KindOf(low), r.action)
    ensures IsTvIssueLocationList(low, fields) && r.Dispatched? ==> r.action.SelectTvIssueLocation?
    ensures KindOf(low).TvIssueButton? && |fields| >= 7 && r.Dispatched? ==>
              r.action.SendTvIssueModal? && r.action.season.Some? && r.action.episode.Some?
    ensures !IsTvIssueLocationList(low, fields) && !(KindOf(low).TvIssueButton? && |fields| >= 7) ==>
              r == Route(KindOf(low), fields, values)
  {
    if IsTvIssueLocationList(low, fields) then
      KindOfByPrefix(low, TvIssueSelect);
      match SelectionOf(values)
      case NoneSelected => Ignored
      case ManySelected => Failed
      case OneSelected(v) => FromLocationList(low, fields, v)
    else if KindOf(low).TvIssueButton? && |fields| >= 7 then FromTvIssueButton(fields)
    else Route(KindOf(low), fields, values)
  }

  /** The handler with `RouteFixed` in place of `Route`. */
  function HandleComponentFixed(id: string, values: seq<string>, userId: nat): (h: Handling)
    ensures h.outcome.Dispatched? ==>
              |Split(id, '/')| >= 2 && ParseUInt64(Split(id, '/')[1]) == Some(userId as int)
  {
    var fields := Split(id, '/');
    var low := LowerStr(id);
    Handling(!Contains(low, "modal"),
             AuthorCheck(fields, userId, if |fields| >= 2 then RouteFixed(low, fields, values) else Failed))
  }
}
