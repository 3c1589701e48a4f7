/**
 * The text helpers of the Discord user interfaces: the length cap every
 * label goes through, the movie, show and artist labels of the search lists,
 * the template filling of the issue form, the location suffix of the issue
 * form's title and the names of the season options.
 *
 * Localised strings are parameters; a `LimitStringSize` whose slice bound
 * would be negative throws in the source, which `CreateInteractionString`
 * reports as `None`.
 */
module DiscordText {
  import opened Wrappers
  import opened Text
  import TvIssueWorkflow

  /** An entry of a select menu: its label, its value and whether it starts selected. */
  datatype SelectOption = SelectOption(text: string, value: string, isDefault: bool)

  function Min(a: nat, b: nat): nat { if a <= b then a else b }

  /** Discord's cap on option labels and placeholders. */
  const LabelLimit: int := 100

  /** The cap on a title that is followed by ` (YYYY)`. */
  const TitleWithYearLimit: int := 93

  predicate EndsWith(s: string, suffix: string)
  {
    |suffix| <= |s| && s[|s| - |suffix|..] == suffix
  }

  /**
   * `LimitStringSize`: a value within the limit is kept, a longer one is cut
   * to `limit - 3` characters followed by "...". The slice needs
   * `limit >= 3` whenever the value is too long.
   */
  function LimitStringSize(value: string, limit: int): (r: string)
    requires |value| <= limit || limit >= 3
    ensures |r| <= limit
    ensures |value| <= limit ==> r == value
    ensures |value| > limit ==> |r| == limit && StartsWith(value, r[..limit - 3]) && EndsWith(r, "...")
  {
    if |value| > limit then value[..limit - 3] + "..." else value
  }

  /** Every capped value is a prefix of the value, or a prefix followed by "...". */
  lemma LimitKeepsPrefix(value: string, limit: int)
    requires limit >= 3
    ensures StartsWith(LimitStringSize(value, limit), value[..if |value| <= limit then |value| else limit - 3])
  {
  }

  /** Capping twice at the same limit is capping once. */
  lemma LimitIdempotent(value: string, limit: int)
    requires limit >= 3
    ensures LimitStringSize(LimitStringSize(value, limit), limit) == LimitStringSize(value, limit)
  {
  }

  // --------------------------------------------------------------- labels

  /** The first four characters of a non-blank date of at least four characters. */
  function ReleaseYear(date: Option<string>): (r: Option<string>)
    ensures r.Some? <==> date.Some? && !IsBlank(date.value) && |date.value| >= 4
    ensures r.Some? ==> |r.value| == 4 && StartsWith(date.value, r.value)
  {
    if date.Some? && !IsBlank(date.value) && |date.value| >= 4 then Some(date.value[..4]) else None
  }

  /** A title capped beside a four-digit year fits the label and ends with the year. */
  lemma WithYear(title: string, year: string)
    requires |year| == 4
    ensures var r := LimitStringSize(title, TitleWithYearLimit) + " (" + year + ")";
            |r| <= LabelLimit && EndsWith(r, " (" + year + ")")
  {
    var t := LimitStringSize(title, TitleWithYearLimit);
    var r := t + " (" + year + ")";
    assert r == t + (" (" + year + ")");
  }

  /** `GetFormatedMovieTitle`: the title, followed by ` (YYYY)` when the release date gives a year. */
  function MovieTitle(title: string, releaseDate: Option<string>): (r: string)
    ensures |r| <= LabelLimit
    ensures ReleaseYear(releaseDate).Some? ==> EndsWith(r, " (" + ReleaseYear(releaseDate).value + ")")
    ensures ReleaseYear(releaseDate).None? ==> r == LimitStringSize(title, LabelLimit)
  {
    var year := ReleaseYear(releaseDate);
    if year.Some? then
      WithYear(title, year.value);
      LimitStringSize(title, TitleWithYearLimit) + " (" + year.value + ")"
    else LimitStringSize(title, LabelLimit)
  }

  /** A title that fits beside its year is shown whole. */
  lemma ShortMovieTitleShown(title: string, releaseDate: string)
    requires |title| <= TitleWithYearLimit && !IsBlank(releaseDate) && |releaseDate| >= 4
    ensures MovieTitle(title, Some(releaseDate)) == title + " (" + releaseDate[..4] + ")"
  {
  }

  /** Whatever the title's length, the label begins with its first 90 characters. */
  lemma MovieTitleKeepsStart(title: string, releaseDate: Option<string>)
    ensures StartsWith(MovieTitle(title, releaseDate), title[..if |title| <= 90 then |title| else 90])
  {
    var n := if |title| <= 90 then |title| else 90;
    var year := ReleaseYear(releaseDate);
    var capped := LimitStringSize(title, if year.Some? then TitleWithYearLimit else LabelLimit);
    assert capped[..n] == title[..n];
    assert MovieTitle(title, releaseDate)[..n] == capped[..n];
  }

  /** The show's title contains the year, ignoring case. */
  predicate MentionsYear(title: string, year: string)
  {
    Contains(LowerStr(title), LowerStr(year))
  }

  /**
   * `GetFormatedTvShowTitle`: the title, followed by ` (YYYY)` when the
   * first-aired date gives a year that the title does not already mention.
   */
  function TvShowTitle(title: string, firstAired: Option<string>): (r: string)
    ensures |r| <= LabelLimit
    ensures (ReleaseYear(firstAired).Some? && !MentionsYear(title, ReleaseYear(firstAired).value))
            ==> EndsWith(r, " (" + ReleaseYear(firstAired).value + ")")
    ensures (ReleaseYear(firstAired).None? || MentionsYear(title, ReleaseYear(firstAired).value))
            ==> r == LimitStringSize(title, LabelLimit)
  {
    var year := ReleaseYear(firstAired);
    if year.Some? && !MentionsYear(title, year.value) then
      WithYear(title, year.value);
      LimitStringSize(title, TitleWithYearLimit) + " (" + year.value + ")"
    else LimitStringSize(title, LabelLimit)
  }

  /** A title that already ends with its year is not given the year a second time. */
  lemma TvShowTitleNoRepeatedYear(name: string, firstAired: string)
    requires !IsBlank(firstAired) && |firstAired| >= 4
    ensures TvShowTitle(name + firstAired[..4], Some(firstAired)) == LimitStringSize(name + firstAired[..4], LabelLimit)
  {
    var year := firstAired[..4];
    assert LowerStr(name + year) == LowerStr(name) + LowerStr(year);
    ContainsSuffix(LowerStr(name), LowerStr(year));
  }

  /** `GetFormattedMusicArtistName`: the artist's name under the label cap. */
  function ArtistLabel(artistName: string): (r: string)
    ensures |r| <= LabelLimit
    ensures |artistName| <= LabelLimit ==> r == artistName
  {
    LimitStringSize(artistName, LabelLimit)
  }

  // ------------------------------------------------------- issue form text

  /**
   * `message.Split(sep)` for a string separator: the fields between the
   * non-overlapping occurrences found from the left; an empty separator
   * splits nothing.
   */
  function SplitOn(s: string, sep: string): (r: seq<string>)
    ensures |r| >= 1
    decreases |s|
  {
    if |sep| == 0 || |s| < |sep| then [s]
    else if s[..|sep|] == sep then [""] + SplitOn(s[|sep|..], sep)
    else
      var rest := SplitOn(s[1..], sep);
      [[s[0]] + rest[0]] + rest[1..]
  }

  /** A text without the separator's first character is one field. */
  lemma {:induction false} SplitOnPlain(p: string, sep: string)
    requires |sep| >= 1 && sep[0] !in p
    ensures SplitOn(p, sep) == [p]
    decreases |p|
  {
    if |p| >= |sep| {
      assert p[..|sep|][0] != sep[0];
      SplitOnPlain(p[1..], sep);
      assert [p[0]] + p[1..] == p;
    }
  }

  /** The first occurrence ends the first field. */
  lemma {:induction false} SplitOnField(p: string, sep: string, rest: string)
    requires |sep| >= 1 && sep[0] !in p
    ensures SplitOn(p + sep + rest, sep) == [p] + SplitOn(rest, sep)
    decreases |p|
  {
    var s := p + sep + rest;
    if p == [] {
      assert s == sep + rest;
      assert s[..|sep|] == sep;
      assert s[|sep|..] == rest;
    } else {
      assert s[0] == p[0];
      assert s[..|sep|][0] != sep[0];
      assert s[1..] == p[1..] + sep + rest;
      SplitOnField(p[1..], sep, rest);
      assert [p[0]] + p[1..] == p;
    }
  }

  /**
   * `CreateInteractionString`: every occurrence of the token `split` in the
   * template is replaced by `insert`, itself capped to what the template
   * leaves of `size`, and the whole is capped to `size`. The cap on `insert`
   * throws when fewer than three characters are left and `insert` does not
   * fit; that is `None`.
   */
  function CreateInteractionString(message: string, split: string, insert: string, size: int): (r: Option<string>)
    requires size >= 3
    ensures r.Some? ==> |r.value| <= size
    ensures r.None? <==> var room := size - |Concat(SplitOn(message, split))|; room < 3 && |insert| > room
  {
    var parts := SplitOn(message, split);
    var room := size - |Concat(parts)|;
    if room < 3 && |insert| > room then None
    else Some(LimitStringSize(Join(parts, LimitStringSize(insert, room)), size))
  }

  /**
   * A template holding the token once, with room for at least three
   * characters, gets the (capped) insert in place of the token.
   */
  lemma TokenReplaced(pre: string, token: string, post: string, insert: string, size: int)
    requires |token| >= 1 && token[0] !in pre && token[0] !in post
    requires size - |pre| - |post| >= 3
    ensures CreateInteractionString(pre + token + post, token, insert, size)
            == Some(pre + LimitStringSize(insert, size - |pre| - |post|) + post)
  {
    SplitOnField(pre, token, post);
    SplitOnPlain(post, token);
    assert SplitOn(pre + token + post, token) == [pre, post];
    assert Concat([post]) == post + Concat([]);
    assert Concat([pre, post]) == pre + Concat([post]);
    var j := LimitStringSize(insert, size - |pre| - |post|);
    assert [pre, post][1..] == [post];
    assert Join([pre, post], j) == pre + j + post;
  }

  /** A template without the token is only capped, as long as the unused insert's cap does not throw. */
  lemma TokenAbsent(message: string, token: string, insert: string, size: int)
    requires |token| >= 1 && token[0] !in message && size >= 3
    requires size - |message| >= 3 || |insert| <= size - |message|
    ensures CreateInteractionString(message, token, insert, size) == Some(LimitStringSize(message, size))
  {
    SplitOnPlain(message, token);
    assert Concat([message]) == message + Concat([]);
  }

  /**
   * `GetIssueLocationSuffix`: nothing without a season (or with a negative
   * one), " - All Seasons" for season 0, else ` - S{s}` with `E{e}` added for
   * a positive episode.
   */
  function IssueLocationSuffix(seasonNumber: Option<int>, episodeNumber: Option<int>): (r: string)
    ensures r == "" <==> seasonNumber.None? || seasonNumber.value < 0
    ensures seasonNumber == Some(0) ==> r == " - All Seasons"
    ensures seasonNumber.Some? && seasonNumber.value > 0 ==> StartsWith(r, " - S" + IntToString(seasonNumber.value))
    ensures seasonNumber.Some? && seasonNumber.value > 0 && (episodeNumber.None? || episodeNumber.value <= 0)
            ==> r == " - S" + IntToString(seasonNumber.value)
  {
    if seasonNumber.None? || seasonNumber.value < 0 then ""
    else if seasonNumber.value == 0 then " - All Seasons"
    else if episodeNumber.Some? && episodeNumber.value > 0 then
      " - S" + IntToString(seasonNumber.value) + "E" + IntToString(episodeNumber.value)
    else " - S" + IntToString(seasonNumber.value)
  }

  /** An episode adds its number after the season's. */
  lemma EpisodeSuffix(seasonNumber: int, episodeNumber: int)
    requires seasonNumber > 0 && episodeNumber > 0
    ensures IssueLocationSuffix(Some(seasonNumber), Some(episodeNumber))
            == IssueLocationSuffix(Some(seasonNumber), None) + "E" + IntToString(episodeNumber)
  {
  }

  /** The localised words used in season names. */
  datatype SeasonWords = SeasonWords(allSeasons: string, futureSeasons: string,
                                     fullyRequested: string, partiallyRequested: string)

  /** The season's name before its request state. */
  function BaseSeasonName(kind: TvIssueWorkflow.SeasonKind, seasonLabel: string, words: SeasonWords): string
  {
    match kind
    case AllTvSeasons => words.allSeasons
    case FutureTvSeasons => words.futureSeasons
    case NormalTvSeason => seasonLabel
  }

  /**
   * `GetFormattedSeasonName`: the season's name (`seasonLabel` is the
   * localised "Season {n}" for a numbered season), followed by the request
   * state. The all-seasons entry is marked only when the whole show is fully
   * requested and is never marked partial.
   */
  function SeasonName(kind: TvIssueWorkflow.SeasonKind, seasonLabel: string,
                      requested: TvIssueWorkflow.RequestedState, allSeasonsFullyRequested: bool,
                      words: SeasonWords): (r: string)
    ensures StartsWith(r, BaseSeasonName(kind, seasonLabel, words))
    ensures kind.AllTvSeasons? ==>
              r == words.allSeasons + (if allSeasonsFullyRequested then " (" + words.fullyRequested + ")" else "")
    ensures !kind.AllTvSeasons? && requested.NotRequested? ==> r == BaseSeasonName(kind, seasonLabel, words)
    ensures !kind.AllTvSeasons? && requested.FullyRequested? ==>
              r == BaseSeasonName(kind, seasonLabel, words) + " (" + words.fullyRequested + ")"
  {
    var name := BaseSeasonName(kind, seasonLabel, words);
    var mark := if kind.AllTvSeasons? then
                  (if allSeasonsFullyRequested then " (" + words.fullyRequested + ")" else "")
                else match requested
                  case FullyRequested => " (" + words.fullyRequested + ")"
                  case PartiallyRequested => " (" + words.partiallyRequested + ")"
                  case NotRequested => "";
    assert (name + mark)[..|name|] == name;
    name + mark
  }

  /** A numbered season's name carries its own request state, partial included. */
  lemma PartialSeasonMarked(seasonLabel: string, words: SeasonWords, allSeasonsFullyRequested: bool)
    ensures SeasonName(TvIssueWorkflow.NormalTvSeason, seasonLabel, TvIssueWorkflow.PartiallyRequested,
                       allSeasonsFullyRequested, words)
            == seasonLabel + " (" + words.partiallyRequested + ")"
  {
  }
}
