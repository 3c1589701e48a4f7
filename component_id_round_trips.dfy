/**
 * Round trips of the wizard token protocol: an id or option value written by
 * a user interface, clicked by its author, reaches the workflow call that
 * matches it with the same numbers and strings. Also the finding about the
 * TV issue lists, as written and corrected.
 */
module ComponentIdRoundTrips {
  import opened Wrappers
  import opened Text
  import opened ComponentIds

  // ------------------------------------------------------------- field level

  lemma FieldsSplit(parts: seq<string>)
    requires |parts| >= 1 && NoSep(parts, '/')
    ensures Split(Fields(parts), '/') == parts
  {
    SplitJoin(parts, '/');
  }

  /** The lower-cased id begins with its lower-cased first field. */
  lemma LowHead(fields: seq<string>)
    requires |fields| >= 2
    ensures var low := LowerStr(Fields(fields));
              |low| > |fields[0]| && low[..|fields[0]|] == LowerStr(fields[0]) && low[|fields[0]|] == '/'
  {
    assert Fields(fields) == fields[0] + "/" + Fields(fields[1..]);
    var low := LowerStr(Fields(fields));
    assert low[..|fields[0]|] == LowerStr(fields[0]);
  }

  /** A click by the id's author is routed on the id's prefix. */
  lemma ByAuthor(id: string, values: seq<string>, userId: nat)
    requires |Split(id, '/')| >= 2 && ParseUInt64(Split(id, '/')[1]) == Some(userId as int)
    ensures HandleComponent(id, values, userId).outcome == Route(KindOf(LowerStr(id)), Split(id, '/'), values)
    ensures HandleComponentFixed(id, values, userId).outcome == RouteFixed(LowerStr(id), Split(id, '/'), values)
  {
  }

  /** The same, for an id written from fields whose second one is the author. */
  lemma {:induction false} ByAuthorOf(fields: seq<string>, values: seq<string>, userId: nat, kind: Kind)
    requires |fields| >= 2 && NoSep(fields, '/')
    requires userId <= UInt64Max && fields[1] == NatToString(userId)
    requires KindOf(LowerStr(Fields(fields))) == kind
    ensures HandleComponent(Fields(fields), values, userId).outcome == Route(kind, fields, values)
  {
    FieldsSplit(fields);
    ParseUInt64RoundTrip(userId);
    ByAuthor(Fields(fields), values, userId);
  }

  // `ByAuthorOf` for ids of three to eight fields, stated on the field list
  // as the encoders write it.

  lemma Clicked3(id: string, tag: string, userId: nat, a: string, values: seq<string>, kind: Kind)
    requires '/' !in tag && '/' !in a && userId <= UInt64Max
    requires KindOf(LowerStr(Fields([tag, NatToString(userId), a]))) == kind
    requires id == Fields([tag, NatToString(userId), a])
    ensures HandleComponent(id, values, userId).outcome == Route(kind, [tag, NatToString(userId), a], values)
  {
    ByAuthorOf([tag, NatToString(userId), a], values, userId, kind);
  }

  lemma Clicked4(id: string, tag: string, userId: nat, a: string, b: string, values: seq<string>, kind: Kind)
    requires '/' !in tag && '/' !in a && '/' !in b && userId <= UInt64Max
    requires KindOf(LowerStr(Fields([tag, NatToString(userId), a, b]))) == kind
    requires id == Fields([tag, NatToString(userId), a, b])
    ensures HandleComponent(id, values, userId).outcome == Route(kind, [tag, NatToString(userId), a, b], values)
  {
    ByAuthorOf([tag, NatToString(userId), a, b], values, userId, kind);
  }

  lemma Clicked5(id: string, tag: string, userId: nat, a: string, b: string, c: string, values: seq<string>, kind: Kind)
    requires '/' !in tag && '/' !in a && '/' !in b && '/' !in c && userId <= UInt64Max
    requires KindOf(LowerStr(Fields([tag, NatToString(userId), a, b, c]))) == kind
    requires id == Fields([tag, NatToString(userId), a, b, c])
    ensures HandleComponent(id, values, userId).outcome == Route(kind, [tag, NatToString(userId), a, b, c], values)
  {
    ByAuthorOf([tag, NatToString(userId), a, b, c], values, userId, kind);
  }

  lemma Clicked6(id: string, tag: string, userId: nat, a: string, b: string, c: string, d: string, values: seq<string>, kind: Kind)
    requires '/' !in tag && '/' !in a && '/' !in b && '/' !in c && '/' !in d && userId <= UInt64Max
    requires KindOf(LowerStr(Fields([tag, NatToString(userId), a, b, c, d]))) == kind
    requires id == Fields([tag, NatToString(userId), a, b, c, d])
    ensures HandleComponent(id, values, userId).outcome == Route(kind, [tag, NatToString(userId), a, b, c, d], values)
  {
    ByAuthorOf([tag, NatToString(userId), a, b, c, d], values, userId, kind);
  }

  lemma Clicked8(id: string, tag: string, userId: nat, a: string, b: string, c: string, d: string, e: string, f: string, values: seq<string>, kind: Kind)
    requires '/' !in tag && '/' !in a && '/' !in b && '/' !in c && '/' !in d && '/' !in e && '/' !in f && userId <= UInt64Max
    requires KindOf(LowerStr(Fields([tag, NatToString(userId), a, b, c, d, e, f]))) == kind
    requires id == Fields([tag, NatToString(userId), a, b, c, d, e, f])
    ensures HandleComponent(id, values, userId).outcome == Route(kind, [tag, NatToString(userId), a, b, c, d, e, f], values)
  {
    ByAuthorOf([tag, NatToString(userId), a, b, c, d, e, f], values, userId, kind);
  }

  lemma {:induction false} ByAuthorOfFixed(fields: seq<string>, values: seq<string>, userId: nat)
    requires |fields| >= 2 && NoSep(fields, '/')
    requires userId <= UInt64Max && fields[1] == NatToString(userId)
    ensures HandleComponentFixed(Fields(fields), values, userId).outcome
            == RouteFixed(LowerStr(Fields(fields)), fields, values)
  {
    FieldsSplit(fields);
    ParseUInt64RoundTrip(userId);
    ByAuthor(Fields(fields), values, userId);
  }

  lemma ClickedFixed6(id: string, tag: string, userId: nat, a: string, b: string, c: string, d: string, values: seq<string>)
    requires '/' !in tag && '/' !in a && '/' !in b && '/' !in c && '/' !in d && userId <= UInt64Max
    requires id == Fields([tag, NatToString(userId), a, b, c, d])
    ensures HandleComponentFixed(id, values, userId).outcome
            == RouteFixed(LowerStr(Fields([tag, NatToString(userId), a, b, c, d])), [tag, NatToString(userId), a, b, c, d], values)
  {
    ByAuthorOfFixed([tag, NatToString(userId), a, b, c, d], values, userId);
  }

  lemma ClickedFixed8(id: string, tag: string, userId: nat, a: string, b: string, c: string, d: string, e: string, f: string, values: seq<string>)
    requires '/' !in tag && '/' !in a && '/' !in b && '/' !in c && '/' !in d && '/' !in e && '/' !in f && userId <= UInt64Max
    requires id == Fields([tag, NatToString(userId), a, b, c, d, e, f])
    ensures HandleComponentFixed(id, values, userId).outcome
            == RouteFixed(LowerStr(Fields([tag, NatToString(userId), a, b, c, d, e, f])), [tag, NatToString(userId), a, b, c, d, e, f], values)
  {
    ByAuthorOfFixed([tag, NatToString(userId), a, b, c, d, e, f], values, userId);
  }

  // ------------------------------------------------------------- decoding

  // Route sends each kind to its branch; each branch then reads a value or
  // an id whose fields are known to parse, and in particular the values and
  // ids the encoders write.

  lemma MovieSearchBranch(fields: seq<string>, values: seq<string>)
    requires |fields| >= 2
    ensures Route(MovieSearch, fields, values) == SelectMovieFrom(values)
  {
  }

  lemma MovieIssueSelectBranch(fields: seq<string>, values: seq<string>)
    requires |fields| >= 2
    ensures Route(MovieIssueSelect, fields, values) == SelectMovieIssueFrom(values)
  {
  }

  lemma MovieConfirmBranch(fields: seq<string>, values: seq<string>)
    requires |fields| >= 2
    ensures Route(MovieConfirm, fields, values) == RequestMovieFrom(fields)
  {
  }

  lemma MovieIssueButtonBranch(fields: seq<string>, values: seq<string>)
    requires |fields| >= 2
    ensures Route(MovieIssueButton, fields, values) == SendMovieIssueModalFrom(fields)
  {
  }

  lemma MovieNotifyBranch(fields: seq<string>, values: seq<string>)
    requires |fields| >= 2
    ensures Route(MovieNotify, fields, values) == NotifyMovieFrom(fields)
  {
  }

  lemma TvSearchBranch(fields: seq<string>, values: seq<string>)
    requires |fields| >= 2
    ensures Route(TvSearch, fields, values) == SelectTvShowFrom(values)
  {
  }

  lemma TvSeasonSelectBranch(fields: seq<string>, values: seq<string>)
    requires |fields| >= 2
    ensures Route(TvSeasonSelect, fields, values) == SelectTvSeasonFrom(values)
  {
  }

  lemma TvConfirmBranch(fields: seq<string>, values: seq<string>)
    requires |fields| >= 2
    ensures Route(TvConfirm, fields, values) == RequestTvSeasonFrom(fields)
  {
  }

  lemma TvIssueSelectBranch(fields: seq<string>, values: seq<string>)
    requires |fields| >= 2
    ensures Route(TvIssueSelect, fields, values) == SelectTvIssueFrom(values)
  {
  }

  lemma TvIssueButtonBranch(fields: seq<string>, values: seq<string>)
    requires |fields| >= 2
    ensures Route(TvIssueButton, fields, values) == SendTvIssueModalFrom(fields)
  {
  }

  lemma TvNotifyBranch(fields: seq<string>, values: seq<string>)
    requires |fields| >= 2
    ensures Route(TvNotify, fields, values) == NotifyTvFrom(fields)
  {
  }

  lemma ArtistSearchBranch(fields: seq<string>, values: seq<string>)
    requires |fields| >= 2
    ensures Route(ArtistSearch, fields, values) == SelectArtistFrom(values)
  {
  }

  lemma ArtistConfirmBranch(fields: seq<string>, values: seq<string>)
    requires |fields| >= 2
    ensures Route(ArtistConfirm, fields, values) == RequestArtistFrom(fields)
  {
  }

  lemma ArtistNotifyBranch(fields: seq<string>, values: seq<string>)
    requires |fields| >= 2
    ensures Route(ArtistNotify, fields, values) == NotifyArtistFrom(fields)
  {
  }

  // The select menus' values.

  lemma MovieSearchValueParts(v: string, a: string, b: string, c: int, m: int)
    requires Split(v, '/') == [a, b] && ParseInt32(a) == Some(c) && ParseInt32(b) == Some(m)
    ensures SelectMovieFrom([v]) == Dispatched(SelectMovie(c, m))
    ensures SelectMovieIssueFrom([v]) == Dispatched(SelectMovieIssue(c, m, ""))
  {
  }

  lemma TvSearchValueParts(v: string, a: string, b: string, c: int, m: int)
    requires Split(v, '/') == [a, b] && ParseInt32(a) == Some(c) && ParseInt32(b) == Some(m)
    ensures SelectTvShowFrom([v]) == Dispatched(SelectTvShow(c, m))
    ensures SelectTvIssueFrom([v]) == Dispatched(SelectTvIssue(c, m, ""))
  {
  }

  /** A search entry's value reads back as its category and media id, in all four search lists. */
  lemma DecodeSearchValue(c: int, m: int)
    requires IsInt32(c) && IsInt32(m)
    ensures SelectMovieFrom([SearchValue(c, m)]) == Dispatched(SelectMovie(c, m))
    ensures SelectMovieIssueFrom([SearchValue(c, m)]) == Dispatched(SelectMovieIssue(c, m, ""))
    ensures SelectTvShowFrom([SearchValue(c, m)]) == Dispatched(SelectTvShow(c, m))
    ensures SelectTvIssueFrom([SearchValue(c, m)]) == Dispatched(SelectTvIssue(c, m, ""))
  {
    FieldsSplit([IntToString(c), IntToString(m)]);
    ParseInt32RoundTrip(c);
    ParseInt32RoundTrip(m);
    MovieSearchValueParts(SearchValue(c, m), IntToString(c), IntToString(m), c, m);
    TvSearchValueParts(SearchValue(c, m), IntToString(c), IntToString(m), c, m);
  }

  lemma IssueValueParts(v: string, a: string, b: string, d: string, c: int, m: int)
    requires Split(v, '/') == [a, b, d] && ParseInt32(a) == Some(c) && ParseInt32(b) == Some(m)
    ensures SelectMovieIssueFrom([v]) == Dispatched(SelectMovieIssue(c, m, d))
  {
  }

  /** An entry of the movie issue-type list reads back as its category, movie and issue. */
  lemma DecodeMovieIssueValue(c: int, m: int, issue: int)
    requires IsInt32(c) && IsInt32(m)
    ensures SelectMovieIssueFrom([MovieIssueValue(c, m, issue)]) == Dispatched(SelectMovieIssue(c, m, IntToString(issue)))
  {
    FieldsSplit([IntToString(c), IntToString(m), IntToString(issue)]);
    ParseInt32RoundTrip(c);
    ParseInt32RoundTrip(m);
    IssueValueParts(MovieIssueValue(c, m, issue), IntToString(c), IntToString(m), IntToString(issue), c, m);
  }

  lemma SeasonValueParts(v: string, a: string, b: string, d: string, c: int, t: int, n: int)
    requires Split(v, '/') == [a, b, d]
    requires ParseInt32(a) == Some(c) && ParseInt32(b) == Some(t) && ParseInt32(d) == Some(n)
    ensures SelectTvSeasonFrom([v]) == Dispatched(SelectTvSeason(c, t, n))
  {
  }

  /** An entry of the season list reads back as its category, show and season. */
  lemma DecodeTvSeasonValue(c: int, t: int, n: int)
    requires IsInt32(c) && IsInt32(t) && IsInt32(n)
    ensures SelectTvSeasonFrom([TvSeasonValue(c, t, n)]) == Dispatched(SelectTvSeason(c, t, n))
  {
    FieldsSplit([IntToString(c), IntToString(t), IntToString(n)]);
    ParseInt32RoundTrip(c);
    ParseInt32RoundTrip(t);
    ParseInt32RoundTrip(n);
    SeasonValueParts(TvSeasonValue(c, t, n), IntToString(c), IntToString(t), IntToString(n), c, t, n);
  }

  lemma ArtistValueParts(v: string, a: string, b: string, c: int)
    requires Split(v, '/') == [a, b] && ParseInt32(a) == Some(c)
    ensures SelectArtistFrom([v]) == Dispatched(SelectArtist(c, b))
  {
  }

  /** An artist search entry reads back as its category and artist id. */
  lemma DecodeArtistValue(c: int, artistId: string)
    requires IsInt32(c) && '/' !in artistId
    ensures SelectArtistFrom([ArtistValue(c, artistId)]) == Dispatched(SelectArtist(c, artistId))
  {
    FieldsSplit([IntToString(c), artistId]);
    ParseInt32RoundTrip(c);
    ArtistValueParts(ArtistValue(c, artistId), IntToString(c), artistId, c);
  }

  /** As written: a one-field value (a season, an episode or an issue number) fails the TV issue branch. */
  lemma OneFieldTvIssue(v: string)
    requires '/' !in v
    ensures SelectTvIssueFrom([v]) == Failed
  {
    SplitPlain(v, '/');
  }

  // The buttons' ids.

  lemma MovieConfirmParts(fields: seq<string>, c: int, m: int)
    requires |fields| >= 3 && ParseInt32(fields[2]) == Some(c) && ParseInt32(Last(fields)) == Some(m)
    ensures RequestMovieFrom(fields) == Dispatched(RequestMovie(c, m))
  {
  }

  lemma DecodeMovieConfirm(fields: seq<string>, c: int, m: int)
    requires |fields| >= 3 && IsInt32(c) && IsInt32(m)
    requires fields[2] == IntToString(c) && Last(fields) == IntToString(m)
    ensures RequestMovieFrom(fields) == Dispatched(RequestMovie(c, m))
  {
    ParseInt32RoundTrip(c);
    ParseInt32RoundTrip(m);
    MovieConfirmParts(fields, c, m);
  }

  lemma MovieIssueButtonParts(fields: seq<string>, c: int, m: int)
    requires |fields| >= 5 && ParseInt32(fields[2]) == Some(c) && ParseInt32(fields[3]) == Some(m)
    ensures SendMovieIssueModalFrom(fields) == Dispatched(SendMovieIssueModal(c, m, fields[4]))
  {
  }

  lemma DecodeMovieIssueButton(fields: seq<string>, c: int, m: int, issue: string)
    requires |fields| >= 5 && IsInt32(c) && IsInt32(m)
    requires fields[2] == IntToString(c) && fields[3] == IntToString(m) && fields[4] == issue
    ensures SendMovieIssueModalFrom(fields) == Dispatched(SendMovieIssueModal(c, m, issue))
  {
    ParseInt32RoundTrip(c);
    ParseInt32RoundTrip(m);
    MovieIssueButtonParts(fields, c, m);
  }

  lemma DecodeMovieNotify(fields: seq<string>, user: string, m: int)
    requires |fields| >= 2 && IsInt32(m) && fields[1] == user && Last(fields) == IntToString(m)
    ensures NotifyMovieFrom(fields) == Dispatched(NotifyMovie(user, m))
  {
    ParseInt32RoundTrip(m);
  }

  lemma TvConfirmParts(fields: seq<string>, c: int, t: int, n: int)
    requires |fields| >= 5 && ParseInt32(fields[2]) == Some(c) && ParseInt32(fields[3]) == Some(t)
    requires ParseInt32(fields[4]) == Some(n)
    ensures RequestTvSeasonFrom(fields) == Dispatched(RequestTvSeason(c, t, n))
  {
  }

  lemma DecodeTvConfirm(fields: seq<string>, c: int, t: int, n: int)
    requires |fields| >= 5 && IsInt32(c) && IsInt32(t) && IsInt32(n)
    requires fields[2] == IntToString(c) && fields[3] == IntToString(t) && fields[4] == IntToString(n)
    ensures RequestTvSeasonFrom(fields) == Dispatched(RequestTvSeason(c, t, n))
  {
    ParseInt32RoundTrip(c);
    ParseInt32RoundTrip(t);
    ParseInt32RoundTrip(n);
    TvConfirmParts(fields, c, t, n);
  }

  lemma TvIssueButtonParts(fields: seq<string>, c: int, t: int)
    requires |fields| >= 5 && ParseInt32(fields[2]) == Some(c) && ParseInt32(fields[3]) == Some(t)
    ensures SendTvIssueModalFrom(fields) == Dispatched(SendTvIssueModal(c, t, fields[4], None, None))
  {
  }

  lemma DecodeTvIssueButton(fields: seq<string>, c: int, t: int, issue: string)
    requires |fields| >= 5 && IsInt32(c) && IsInt32(t)
    requires fields[2] == IntToString(c) && fields[3] == IntToString(t) && fields[4] == issue
    ensures SendTvIssueModalFrom(fields) == Dispatched(SendTvIssueModal(c, t, issue, None, None))
  {
    ParseInt32RoundTrip(c);
    ParseInt32RoundTrip(t);
    TvIssueButtonParts(fields, c, t);
  }

  lemma TvNotifyParts(fields: seq<string>, t: int, n: int)
    requires |fields| >= 5 && ParseInt32(fields[2]) == Some(t) && ParseInt32(fields[4]) == Some(n)
    ensures NotifyTvFrom(fields) == Dispatched(NotifyTv(fields[1], t, fields[3], n))
  {
  }

  lemma DecodeTvNotify(fields: seq<string>, user: string, t: int, seasonKind: string, n: int)
    requires |fields| >= 5 && IsInt32(t) && IsInt32(n)
    requires fields[1] == user && fields[2] == IntToString(t) && fields[3] == seasonKind && fields[4] == IntToString(n)
    ensures NotifyTvFrom(fields) == Dispatched(NotifyTv(user, t, seasonKind, n))
  {
    ParseInt32RoundTrip(t);
    ParseInt32RoundTrip(n);
    TvNotifyParts(fields, t, n);
  }

  lemma DecodeArtistConfirm(fields: seq<string>, c: int, artistId: string)
    requires |fields| >= 3 && IsInt32(c) && fields[2] == IntToString(c) && Last(fields) == artistId
    ensures RequestArtistFrom(fields) == Dispatched(RequestArtist(c, artistId))
  {
    ParseInt32RoundTrip(c);
  }

  // The corrected routing of the TV issue lists and button.

  lemma FixedListBranch(low: string, fields: seq<string>, v: string)
    requires IsTvIssueLocationList(low, fields)
    ensures RouteFixed(low, fields, [v]) == FromLocationList(low, fields, v)
  {
  }

  lemma FixedButtonBranch(low: string, fields: seq<string>)
    requires |fields| >= 7 && KindOf(low) == TvIssueButton && !StartsWith(low, "tirs")
    ensures RouteFixed(low, fields, []) == FromTvIssueButton(fields)
  {
  }

  lemma LocationParts(low: string, fields: seq<string>, v: string, c: int, t: int, issue: string, s: int, e: int)
    requires |fields| >= 6
    requires ParseInt32(fields[2]) == Some(c) && ParseInt32(fields[3]) == Some(t)
    requires StartsWith(low, "tirss") ==> fields[4] == issue && ParseInt32(v) == Some(s) && ParseInt32(fields[5]) == Some(e)
    requires !StartsWith(low, "tirss") && StartsWith(low, "tirse") ==>
               fields[4] == issue && ParseInt32(fields[5]) == Some(s) && ParseInt32(v) == Some(e)
    requires !StartsWith(low, "tirss") && !StartsWith(low, "tirse") ==>
               v == issue && ParseInt32(fields[4]) == Some(s) && ParseInt32(fields[5]) == Some(e)
    ensures FromLocationList(low, fields, v) == Dispatched(SelectTvIssueLocation(c, t, issue, s, e))
  {
  }

  lemma DecodeSeasonList(low: string, fields: seq<string>, c: int, t: int, s: int, e: int)
    requires |fields| >= 6 && StartsWith(low, "tirss")
    requires IsInt32(c) && IsInt32(t) && IsInt32(s) && IsInt32(e)
    requires fields[2] == IntToString(c) && fields[3] == IntToString(t) && fields[5] == IntToString(e)
    ensures FromLocationList(low, fields, IntToString(s)) == Dispatched(SelectTvIssueLocation(c, t, fields[4], s, e))
  {
    ParseInt32RoundTrip(c);
    ParseInt32RoundTrip(t);
    ParseInt32RoundTrip(s);
    ParseInt32RoundTrip(e);
    LocationParts(low, fields, IntToString(s), c, t, fields[4], s, e);
  }

  lemma DecodeEpisodeList(low: string, fields: seq<string>, c: int, t: int, s: int, e: int)
    requires |fields| >= 6 && !StartsWith(low, "tirss") && StartsWith(low, "tirse")
    requires IsInt32(c) && IsInt32(t) && IsInt32(s) && IsInt32(e)
    requires fields[2] == IntToString(c) && fields[3] == IntToString(t) && fields[5] == IntToString(s)
    ensures FromLocationList(low, fields, IntToString(e)) == Dispatched(SelectTvIssueLocation(c, t, fields[4], s, e))
  {
    ParseInt32RoundTrip(c);
    ParseInt32RoundTrip(t);
    ParseInt32RoundTrip(s);
    ParseInt32RoundTrip(e);
    LocationParts(low, fields, IntToString(e), c, t, fields[4], s, e);
  }

  lemma DecodeIssueTypeList(low: string, fields: seq<string>, c: int, t: int, s: int, e: int, issue: string)
    requires |fields| >= 6 && !StartsWith(low, "tirss") && !StartsWith(low, "tirse")
    requires IsInt32(c) && IsInt32(t) && IsInt32(s) && IsInt32(e)
    requires fields[2] == IntToString(c) && fields[3] == IntToString(t)
    requires fields[4] == IntToString(s) && fields[5] == IntToString(e)
    ensures FromLocationList(low, fields, issue) == Dispatched(SelectTvIssueLocation(c, t, issue, s, e))
  {
    ParseInt32RoundTrip(c);
    ParseInt32RoundTrip(t);
    ParseInt32RoundTrip(s);
    ParseInt32RoundTrip(e);
    LocationParts(low, fields, issue, c, t, issue, s, e);
  }

  lemma TvIssueButtonFixedParts(fields: seq<string>, c: int, t: int, s: int, e: int)
    requires |fields| >= 7
    requires ParseInt32(fields[2]) == Some(c) && ParseInt32(fields[3]) == Some(t)
    requires ParseInt32(fields[5]) == Some(s) && ParseInt32(fields[6]) == Some(e)
    ensures FromTvIssueButton(fields) == Dispatched(SendTvIssueModal(c, t, fields[4], Some(s), Some(e)))
  {
  }

  lemma DecodeTvIssueButtonFixed(fields: seq<string>, c: int, t: int, issue: string, s: int, e: int)
    requires |fields| >= 7 && IsInt32(c) && IsInt32(t) && IsInt32(s) && IsInt32(e)
    requires fields[2] == IntToString(c) && fields[3] == IntToString(t) && fields[4] == issue
    requires fields[5] == IntToString(s) && fields[6] == IntToString(e)
    ensures FromTvIssueButton(fields) == Dispatched(SendTvIssueModal(c, t, issue, Some(s), Some(e)))
  {
    ParseInt32RoundTrip(c);
    ParseInt32RoundTrip(t);
    ParseInt32RoundTrip(s);
    ParseInt32RoundTrip(e);
    TvIssueButtonFixedParts(fields, c, t, s, e);
  }

  // ------------------------------------------------------------- prefixes

  // Each tag selects its branch: first on any lower-cased id that begins with
  // the tag, then on an id written from fields that begin with it.

  lemma KindMrsAt(low: string)
    requires |low| >= 3 && low[0] == 'm' && low[1] == 'r' && low[2] == 's'
    ensures KindOf(low) == MovieSearch
  {
  }

  lemma KindMrs(fields: seq<string>)
    requires |fields| >= 2 && fields[0] == "MRS"
    ensures KindOf(LowerStr(Fields(fields))) == MovieSearch
  {
    LowHead(fields);
    assert LowerStr("MRS") == "mrs";
    KindMrsAt(LowerStr(Fields(fields)));
  }

  lemma KindMirsAt(low: string)
    requires |low| >= 4 && low[0] == 'm' && low[1] == 'i' && low[2] == 'r' && low[3] == 's'
    ensures KindOf(low) == MovieIssueSelect
  {
  }

  lemma KindMirs(fields: seq<string>)
    requires |fields| >= 2 && fields[0] == "MIRS"
    ensures KindOf(LowerStr(Fields(fields))) == MovieIssueSelect
  {
    LowHead(fields);
    assert LowerStr("MIRS") == "mirs";
    KindMirsAt(LowerStr(Fields(fields)));
  }

  lemma KindMrcAt(low: string)
    requires |low| >= 3 && low[0] == 'm' && low[1] == 'r' && low[2] == 'c'
    ensures KindOf(low) == MovieConfirm
  {
  }

  lemma KindMrc(fields: seq<string>)
    requires |fields| >= 2 && fields[0] == "MRC"
    ensures KindOf(LowerStr(Fields(fields))) == MovieConfirm
  {
    LowHead(fields);
    assert LowerStr("MRC") == "mrc";
    KindMrcAt(LowerStr(Fields(fields)));
  }

  lemma KindMirbAt(low: string)
    requires |low| >= 4 && low[0] == 'm' && low[1] == 'i' && low[2] == 'r' && low[3] == 'b'
    ensures KindOf(low) == MovieIssueButton
  {
  }

  lemma KindMirb(fields: seq<string>)
    requires |fields| >= 2 && fields[0] == "MIRB"
    ensures KindOf(LowerStr(Fields(fields))) == MovieIssueButton
  {
    LowHead(fields);
    assert LowerStr("MIRB") == "mirb";
    KindMirbAt(LowerStr(Fields(fields)));
  }

  lemma KindMnrAt(low: string)
    requires |low| >= 3 && low[0] == 'm' && low[1] == 'n' && low[2] == 'r'
    ensures KindOf(low) == MovieNotify
  {
  }

  lemma KindMnr(fields: seq<string>)
    requires |fields| >= 2 && fields[0] == "MNR"
    ensures KindOf(LowerStr(Fields(fields))) == MovieNotify
  {
    LowHead(fields);
    assert LowerStr("MNR") == "mnr";
    KindMnrAt(LowerStr(Fields(fields)));
  }

  lemma KindTrsAt(low: string)
    requires |low| >= 3 && low[0] == 't' && low[1] == 'r' && low[2] == 's'
    ensures KindOf(low) == TvSearch
  {
  }

  lemma KindTrs(fields: seq<string>)
    requires |fields| >= 2 && fields[0] == "TRS"
    ensures KindOf(LowerStr(Fields(fields))) == TvSearch
  {
    LowHead(fields);
    assert LowerStr("TRS") == "trs";
    KindTrsAt(LowerStr(Fields(fields)));
  }

  lemma KindTirsAt(low: string)
    requires |low| >= 4 && low[0] == 't' && low[1] == 'i' && low[2] == 'r' && low[3] == 's'
    ensures KindOf(low) == TvIssueSelect
  {
  }

  lemma KindTirs(fields: seq<string>)
    requires |fields| >= 2 && fields[0] == "TIRS"
    ensures KindOf(LowerStr(Fields(fields))) == TvIssueSelect
  {
    LowHead(fields);
    assert LowerStr("TIRS") == "tirs";
    KindTirsAt(LowerStr(Fields(fields)));
  }

  lemma KindTssAt(low: string)
    requires |low| >= 3 && low[0] == 't' && low[1] == 's' && low[2] == 's'
    ensures KindOf(low) == TvSeasonSelect
  {
  }

  lemma KindTss(fields: seq<string>)
    requires |fields| >= 2 && fields[0] == "TSS"
    ensures KindOf(LowerStr(Fields(fields))) == TvSeasonSelect
  {
    LowHead(fields);
    assert LowerStr("TSS") == "tss";
    KindTssAt(LowerStr(Fields(fields)));
  }

  lemma KindTrcAt(low: string)
    requires |low| >= 3 && low[0] == 't' && low[1] == 'r' && low[2] == 'c'
    ensures KindOf(low) == TvConfirm
  {
  }

  lemma KindTrc(fields: seq<string>)
    requires |fields| >= 2 && fields[0] == "TRC"
    ensures KindOf(LowerStr(Fields(fields))) == TvConfirm
  {
    LowHead(fields);
    assert LowerStr("TRC") == "trc";
    KindTrcAt(LowerStr(Fields(fields)));
  }

  lemma KindTirbAt(low: string)
    requires |low| >= 4 && low[0] == 't' && low[1] == 'i' && low[2] == 'r' && low[3] == 'b'
    ensures KindOf(low) == TvIssueButton
  {
  }

  lemma KindTirb(fields: seq<string>)
    requires |fields| >= 2 && fields[0] == "TIRB"
    ensures KindOf(LowerStr(Fields(fields))) == TvIssueButton
  {
    LowHead(fields);
    assert LowerStr("TIRB") == "tirb";
    KindTirbAt(LowerStr(Fields(fields)));
  }

  lemma KindTnrAt(low: string)
    requires |low| >= 3 && low[0] == 't' && low[1] == 'n' && low[2] == 'r'
    ensures KindOf(low) == TvNotify
  {
  }

  lemma KindTnr(fields: seq<string>)
    requires |fields| >= 2 && fields[0] == "TNR"
    ensures KindOf(LowerStr(Fields(fields))) == TvNotify
  {
    LowHead(fields);
    assert LowerStr("TNR") == "tnr";
    KindTnrAt(LowerStr(Fields(fields)));
  }

  lemma KindMursaAt(low: string)
    requires |low| >= 5 && low[0] == 'm' && low[1] == 'u' && low[2] == 'r' && low[3] == 's' && low[4] == 'a'
    ensures KindOf(low) == ArtistSearch
  {
  }

  lemma KindMursa(fields: seq<string>)
    requires |fields| >= 2 && fields[0] == "MuRSA"
    ensures KindOf(LowerStr(Fields(fields))) == ArtistSearch
  {
    LowHead(fields);
    assert LowerStr("MuRSA") == "mursa";
    KindMursaAt(LowerStr(Fields(fields)));
  }

  lemma KindMurcaAt(low: string)
    requires |low| >= 5 && low[0] == 'm' && low[1] == 'u' && low[2] == 'r' && low[3] == 'c' && low[4] == 'a'
    ensures KindOf(low) == ArtistConfirm
  {
  }

  lemma KindMurca(fields: seq<string>)
    requires |fields| >= 2 && fields[0] == "MuRCA"
    ensures KindOf(LowerStr(Fields(fields))) == ArtistConfirm
  {
    LowHead(fields);
    assert LowerStr("MuRCA") == "murca";
    KindMurcaAt(LowerStr(Fields(fields)));
  }

  lemma KindMunrAt(low: string)
    requires |low| >= 4 && low[0] == 'm' && low[1] == 'u' && low[2] == 'n' && low[3] == 'r'
    ensures KindOf(low) == ArtistNotify
  {
  }

  lemma KindMunr(fields: seq<string>)
    requires |fields| >= 2 && fields[0] == "MuNR"
    ensures KindOf(LowerStr(Fields(fields))) == ArtistNotify
  {
    LowHead(fields);
    assert LowerStr("MuNR") == "munr";
    KindMunrAt(LowerStr(Fields(fields)));
  }

  /** An id that begins with neither `m` nor `t` selects no branch. */
  lemma UnroutedAt(low: string)
    requires |low| >= 1 && low[0] != 'm' && low[0] != 't'
    ensures KindOf(low) == Unrouted
  {
  }

  // The TV issue lists and button, with the prefix tests the corrected
  // routing makes on them.

  lemma TirssAt(low: string)
    requires |low| >= 5 && low[0] == 't' && low[1] == 'i' && low[2] == 'r' && low[3] == 's' && low[4] == 's'
    ensures KindOf(low) == TvIssueSelect && StartsWith(low, "tirs") && StartsWith(low, "tirss") && !StartsWith(low, "tirse")
  {
  }

  lemma Tirss(fields: seq<string>)
    requires |fields| >= 2 && fields[0] == "TIRSS"
    ensures var low := LowerStr(Fields(fields));
              KindOf(low) == TvIssueSelect && StartsWith(low, "tirs") && StartsWith(low, "tirss") && !StartsWith(low, "tirse")
  {
    LowHead(fields);
    assert LowerStr("TIRSS") == "tirss";
    TirssAt(LowerStr(Fields(fields)));
  }

  lemma TirseAt(low: string)
    requires |low| >= 5 && low[0] == 't' && low[1] == 'i' && low[2] == 'r' && low[3] == 's' && low[4] == 'e'
    ensures KindOf(low) == TvIssueSelect && StartsWith(low, "tirs") && !StartsWith(low, "tirss") && StartsWith(low, "tirse")
  {
  }

  lemma Tirse(fields: seq<string>)
    requires |fields| >= 2 && fields[0] == "TIRSE"
    ensures var low := LowerStr(Fields(fields));
              KindOf(low) == TvIssueSelect && StartsWith(low, "tirs") && !StartsWith(low, "tirss") && StartsWith(low, "tirse")
  {
    LowHead(fields);
    assert LowerStr("TIRSE") == "tirse";
    TirseAt(LowerStr(Fields(fields)));
  }

  lemma TirsSlashAt(low: string)
    requires |low| >= 5 && low[0] == 't' && low[1] == 'i' && low[2] == 'r' && low[3] == 's' && low[4] == '/'
    ensures KindOf(low) == TvIssueSelect && StartsWith(low, "tirs") && !StartsWith(low, "tirss") && !StartsWith(low, "tirse")
  {
  }

  lemma TirsSlash(fields: seq<string>)
    requires |fields| >= 2 && fields[0] == "TIRS"
    ensures var low := LowerStr(Fields(fields));
              KindOf(low) == TvIssueSelect && StartsWith(low, "tirs") && !StartsWith(low, "tirss") && !StartsWith(low, "tirse")
  {
    LowHead(fields);
    assert LowerStr("TIRS") == "tirs";
    TirsSlashAt(LowerStr(Fields(fields)));
  }

  lemma TirbAt(low: string)
    requires |low| >= 4 && low[0] == 't' && low[1] == 'i' && low[2] == 'r' && low[3] == 'b'
    ensures KindOf(low) == TvIssueButton && !StartsWith(low, "tirs")
  {
  }

  lemma Tirb(fields: seq<string>)
    requires |fields| >= 2 && fields[0] == "TIRB"
    ensures var low := LowerStr(Fields(fields)); KindOf(low) == TvIssueButton && !StartsWith(low, "tirs")
  {
    LowHead(fields);
    assert LowerStr("TIRB") == "tirb";
    TirbAt(LowerStr(Fields(fields)));
  }

  // ------------------------------------------------------------- movies

  // Each round trip is a click routed to its branch, then that branch's
  // decoding of the value or the id's fields.

  lemma MovieSearchClicked(userId: nat, categoryId: int, values: seq<string>)
    requires userId <= UInt64Max
    ensures HandleComponent(MovieSearchId(ForRequest, userId, categoryId), values, userId).outcome
            == SelectMovieFrom(values)
  {
    KindMrs(["MRS", NatToString(userId), IntToString(categoryId)]);
    Clicked3(MovieSearchId(ForRequest, userId, categoryId), "MRS", userId, IntToString(categoryId), values, MovieSearch);
    MovieSearchBranch(["MRS", NatToString(userId), IntToString(categoryId)], values);
  }

  /** A movie search entry reaches the selection of that movie in that category. */
  lemma MovieSearchRoundTrip(userId: nat, categoryId: int, movieId: int)
    requires userId <= UInt64Max && IsInt32(categoryId) && IsInt32(movieId)
    ensures HandleComponent(MovieSearchId(ForRequest, userId, categoryId), [SearchValue(categoryId, movieId)], userId).outcome
            == Dispatched(SelectMovie(categoryId, movieId))
  {
    MovieSearchClicked(userId, categoryId, [SearchValue(categoryId, movieId)]);
    DecodeSearchValue(categoryId, movieId);
  }

  lemma MovieIssueSearchClicked(userId: nat, categoryId: int, values: seq<string>)
    requires userId <= UInt64Max
    ensures HandleComponent(MovieSearchId(ForIssue, userId, categoryId), values, userId).outcome
            == SelectMovieIssueFrom(values)
  {
    KindMirs(["MIRS", NatToString(userId), IntToString(categoryId)]);
    Clicked3(MovieSearchId(ForIssue, userId, categoryId), "MIRS", userId, IntToString(categoryId), values, MovieIssueSelect);
    MovieIssueSelectBranch(["MIRS", NatToString(userId), IntToString(categoryId)], values);
  }

  /** A movie search entry of the issue wizard reaches the issue-type list of that movie. */
  lemma MovieIssueSearchRoundTrip(userId: nat, categoryId: int, movieId: int)
    requires userId <= UInt64Max && IsInt32(categoryId) && IsInt32(movieId)
    ensures HandleComponent(MovieSearchId(ForIssue, userId, categoryId), [SearchValue(categoryId, movieId)], userId).outcome
            == Dispatched(SelectMovieIssue(categoryId, movieId, ""))
  {
    MovieIssueSearchClicked(userId, categoryId, [SearchValue(categoryId, movieId)]);
    DecodeSearchValue(categoryId, movieId);
  }

  lemma MovieConfirmClicked(userId: nat, categoryId: int, movieId: int)
    requires userId <= UInt64Max
    ensures HandleComponent(MovieConfirmId(userId, categoryId, movieId), [], userId).outcome
            == RequestMovieFrom(["MRC", NatToString(userId), IntToString(categoryId), IntToString(movieId)])
  {
    KindMrc(["MRC", NatToString(userId), IntToString(categoryId), IntToString(movieId)]);
    Clicked4(MovieConfirmId(userId, categoryId, movieId), "MRC", userId, IntToString(categoryId), IntToString(movieId), [], MovieConfirm);
    MovieConfirmBranch(["MRC", NatToString(userId), IntToString(categoryId), IntToString(movieId)], []);
  }

  /** The movie request button reaches the request of that movie in that category. */
  lemma MovieConfirmRoundTrip(userId: nat, categoryId: int, movieId: int)
    requires userId <= UInt64Max && IsInt32(categoryId) && IsInt32(movieId)
    ensures HandleComponent(MovieConfirmId(userId, categoryId, movieId), [], userId).outcome
            == Dispatched(RequestMovie(categoryId, movieId))
  {
    MovieConfirmClicked(userId, categoryId, movieId);
    DecodeMovieConfirm(["MRC", NatToString(userId), IntToString(categoryId), IntToString(movieId)], categoryId, movieId);
  }

  lemma MovieIssueSelectClicked(userId: nat, categoryId: int, movieId: int, values: seq<string>)
    requires userId <= UInt64Max
    ensures HandleComponent(MovieIssueSelectId(userId, categoryId, movieId), values, userId).outcome
            == SelectMovieIssueFrom(values)
  {
    KindMirs(["MIRS", NatToString(userId), IntToString(categoryId), IntToString(movieId)]);
    Clicked4(MovieIssueSelectId(userId, categoryId, movieId), "MIRS", userId, IntToString(categoryId), IntToString(movieId),
             values, MovieIssueSelect);
    MovieIssueSelectBranch(["MIRS", NatToString(userId), IntToString(categoryId), IntToString(movieId)], values);
  }

  /** An entry of the movie issue-type list reaches that issue for that movie. */
  lemma MovieIssueSelectRoundTrip(userId: nat, categoryId: int, movieId: int, issue: int)
    requires userId <= UInt64Max && IsInt32(categoryId) && IsInt32(movieId)
    ensures HandleComponent(MovieIssueSelectId(userId, categoryId, movieId),
                            [MovieIssueValue(categoryId, movieId, issue)], userId).outcome
            == Dispatched(SelectMovieIssue(categoryId, movieId, IntToString(issue)))
  {
    MovieIssueSelectClicked(userId, categoryId, movieId, [MovieIssueValue(categoryId, movieId, issue)]);
    DecodeMovieIssueValue(categoryId, movieId, issue);
  }

  lemma MovieIssueButtonClicked(userId: nat, categoryId: int, movieId: int, issue: string)
    requires userId <= UInt64Max && '/' !in issue
    ensures HandleComponent(MovieIssueButtonId(userId, categoryId, movieId, issue), [], userId).outcome
            == SendMovieIssueModalFrom(["MIRB", NatToString(userId), IntToString(categoryId), IntToString(movieId), issue, "Modal"])
  {
    KindMirb(["MIRB", NatToString(userId), IntToString(categoryId), IntToString(movieId), issue, "Modal"]);
    Clicked6(MovieIssueButtonId(userId, categoryId, movieId, issue), "MIRB", userId, IntToString(categoryId), IntToString(movieId),
             issue, "Modal", [], MovieIssueButton);
    MovieIssueButtonBranch(["MIRB", NatToString(userId), IntToString(categoryId), IntToString(movieId), issue, "Modal"], []);
  }

  /** The movie issue submit button reaches the modal for that issue. */
  lemma MovieIssueButtonRoundTrip(userId: nat, categoryId: int, movieId: int, issue: string)
    requires userId <= UInt64Max && IsInt32(categoryId) && IsInt32(movieId) && '/' !in issue
    ensures HandleComponent(MovieIssueButtonId(userId, categoryId, movieId, issue), [], userId).outcome
            == Dispatched(SendMovieIssueModal(categoryId, movieId, issue))
  {
    MovieIssueButtonClicked(userId, categoryId, movieId, issue);
    DecodeMovieIssueButton(["MIRB", NatToString(userId), IntToString(categoryId), IntToString(movieId), issue, "Modal"],
                           categoryId, movieId, issue);
  }

  lemma MovieNotifyClicked(userId: nat, movieId: int)
    requires userId <= UInt64Max
    ensures HandleComponent(MovieNotifyId(userId, movieId), [], userId).outcome
            == NotifyMovieFrom(["MNR", NatToString(userId), IntToString(movieId)])
  {
    KindMnr(["MNR", NatToString(userId), IntToString(movieId)]);
    Clicked3(MovieNotifyId(userId, movieId), "MNR", userId, IntToString(movieId), [], MovieNotify);
    MovieNotifyBranch(["MNR", NatToString(userId), IntToString(movieId)], []);
  }

  /** The movie notify-me button reaches the notification for that user and movie. */
  lemma MovieNotifyRoundTrip(userId: nat, movieId: int)
    requires userId <= UInt64Max && IsInt32(movieId)
    ensures HandleComponent(MovieNotifyId(userId, movieId), [], userId).outcome
            == Dispatched(NotifyMovie(NatToString(userId), movieId))
  {
    MovieNotifyClicked(userId, movieId);
    DecodeMovieNotify(["MNR", NatToString(userId), IntToString(movieId)], NatToString(userId), movieId);
  }

  // ------------------------------------------------------------- TV shows

  lemma TvSearchClicked(userId: nat, categoryId: int, values: seq<string>)
    requires userId <= UInt64Max
    ensures HandleComponent(TvSearchId(ForRequest, userId, categoryId), values, userId).outcome
            == SelectTvShowFrom(values)
  {
    KindTrs(["TRS", NatToString(userId), IntToString(categoryId)]);
    Clicked3(TvSearchId(ForRequest, userId, categoryId), "TRS", userId, IntToString(categoryId), values, TvSearch);
    TvSearchBranch(["TRS", NatToString(userId), IntToString(categoryId)], values);
  }

  /** A TV search entry reaches the selection of that show in that category. */
  lemma TvSearchRoundTrip(userId: nat, categoryId: int, tvDbId: int)
    requires userId <= UInt64Max && IsInt32(categoryId) && IsInt32(tvDbId)
    ensures HandleComponent(TvSearchId(ForRequest, userId, categoryId), [SearchValue(categoryId, tvDbId)], userId).outcome
            == Dispatched(SelectTvShow(categoryId, tvDbId))
  {
    TvSearchClicked(userId, categoryId, [SearchValue(categoryId, tvDbId)]);
    DecodeSearchValue(categoryId, tvDbId);
  }

  lemma TvIssueSearchClicked(userId: nat, categoryId: int, values: seq<string>)
    requires userId <= UInt64Max
    ensures HandleComponent(TvSearchId(ForIssue, userId, categoryId), values, userId).outcome
            == SelectTvIssueFrom(values)
  {
    KindTirs(["TIRS", NatToString(userId), IntToString(categoryId)]);
    Clicked3(TvSearchId(ForIssue, userId, categoryId), "TIRS", userId, IntToString(categoryId), values, TvIssueSelect);
    TvIssueSelectBranch(["TIRS", NatToString(userId), IntToString(categoryId)], values);
  }

  /** A TV search entry of the issue wizard reaches the issue selection for that show. */
  lemma TvIssueSearchRoundTrip(userId: nat, categoryId: int, tvDbId: int)
    requires userId <= UInt64Max && IsInt32(categoryId) && IsInt32(tvDbId)
    ensures HandleComponent(TvSearchId(ForIssue, userId, categoryId), [SearchValue(categoryId, tvDbId)], userId).outcome
            == Dispatched(SelectTvIssue(categoryId, tvDbId, ""))
  {
    TvIssueSearchClicked(userId, categoryId, [SearchValue(categoryId, tvDbId)]);
    DecodeSearchValue(categoryId, tvDbId);
  }

  lemma TvSeasonSelectClicked(userId: nat, categoryId: int, values: seq<string>)
    requires userId <= UInt64Max
    ensures HandleComponent(TvSeasonSelectId(userId, categoryId), values, userId).outcome
            == SelectTvSeasonFrom(values)
  {
    KindTss(["TSS", NatToString(userId), IntToString(categoryId)]);
    Clicked3(TvSeasonSelectId(userId, categoryId), "TSS", userId, IntToString(categoryId), values, TvSeasonSelect);
    TvSeasonSelectBranch(["TSS", NatToString(userId), IntToString(categoryId)], values);
  }

  /** A season list entry reaches the selection of that season of that show. */
  lemma TvSeasonSelectRoundTrip(userId: nat, categoryId: int, tvDbId: int, seasonNumber: int)
    requires userId <= UInt64Max && IsInt32(categoryId) && IsInt32(tvDbId) && IsInt32(seasonNumber)
    ensures HandleComponent(TvSeasonSelectId(userId, categoryId),
                            [TvSeasonValue(categoryId, tvDbId, seasonNumber)], userId).outcome
            == Dispatched(SelectTvSeason(categoryId, tvDbId, seasonNumber))
  {
    TvSeasonSelectClicked(userId, categoryId, [TvSeasonValue(categoryId, tvDbId, seasonNumber)]);
    DecodeTvSeasonValue(categoryId, tvDbId, seasonNumber);
  }

  lemma TvConfirmClicked(userId: nat, categoryId: int, tvDbId: int, seasonNumber: int)
    requires userId <= UInt64Max
    ensures HandleComponent(TvConfirmId(userId, categoryId, tvDbId, seasonNumber), [], userId).outcome
            == RequestTvSeasonFrom(["TRC", NatToString(userId), IntToString(categoryId), IntToString(tvDbId), IntToString(seasonNumber)])
  {
    KindTrc(["TRC", NatToString(userId), IntToString(categoryId), IntToString(tvDbId), IntToString(seasonNumber)]);
    Clicked5(TvConfirmId(userId, categoryId, tvDbId, seasonNumber), "TRC", userId, IntToString(categoryId), IntToString(tvDbId),
             IntToString(seasonNumber), [], TvConfirm);
    TvConfirmBranch(["TRC", NatToString(userId), IntToString(categoryId), IntToString(tvDbId), IntToString(seasonNumber)], []);
  }

  /** The TV request button reaches the request of that season of that show. */
  lemma TvConfirmRoundTrip(userId: nat, categoryId: int, tvDbId: int, seasonNumber: int)
    requires userId <= UInt64Max && IsInt32(categoryId) && IsInt32(tvDbId) && IsInt32(seasonNumber)
    ensures HandleComponent(TvConfirmId(userId, categoryId, tvDbId, seasonNumber), [], userId).outcome
            == Dispatched(RequestTvSeason(categoryId, tvDbId, seasonNumber))
  {
    TvConfirmClicked(userId, categoryId, tvDbId, seasonNumber);
    DecodeTvConfirm(["TRC", NatToString(userId), IntToString(categoryId), IntToString(tvDbId), IntToString(seasonNumber)],
                    categoryId, tvDbId, seasonNumber);
  }

  lemma TvNotifyClicked(userId: nat, tvDbId: int, seasonKind: char, seasonNumber: int)
    requires userId <= UInt64Max && seasonKind != '/'
    ensures HandleComponent(TvNotifyId(userId, tvDbId, seasonKind, seasonNumber), [], userId).outcome
            == NotifyTvFrom(["TNR", NatToString(userId), IntToString(tvDbId), [seasonKind], IntToString(seasonNumber)])
  {
    KindTnr(["TNR", NatToString(userId), IntToString(tvDbId), [seasonKind], IntToString(seasonNumber)]);
    Clicked5(TvNotifyId(userId, tvDbId, seasonKind, seasonNumber), "TNR", userId, IntToString(tvDbId), [seasonKind],
             IntToString(seasonNumber), [], TvNotify);
    TvNotifyBranch(["TNR", NatToString(userId), IntToString(tvDbId), [seasonKind], IntToString(seasonNumber)], []);
  }

  /** The TV notify-me button reaches the notification for that user, show and season. */
  lemma TvNotifyRoundTrip(userId: nat, tvDbId: int, seasonKind: char, seasonNumber: int)
    requires userId <= UInt64Max && IsInt32(tvDbId) && IsInt32(seasonNumber) && seasonKind != '/'
    ensures HandleComponent(TvNotifyId(userId, tvDbId, seasonKind, seasonNumber), [], userId).outcome
            == Dispatched(NotifyTv(NatToString(userId), tvDbId, [seasonKind], seasonNumber))
  {
    TvNotifyClicked(userId, tvDbId, seasonKind, seasonNumber);
    DecodeTvNotify(["TNR", NatToString(userId), IntToString(tvDbId), [seasonKind], IntToString(seasonNumber)],
                   NatToString(userId), tvDbId, [seasonKind], seasonNumber);
  }

  // ------------------------------------------------------------- music

  lemma ArtistSearchClicked(userId: nat, categoryId: int, values: seq<string>)
    requires userId <= UInt64Max
    ensures HandleComponent(ArtistSearchId(userId, categoryId), values, userId).outcome
            == SelectArtistFrom(values)
  {
    KindMursa(["MuRSA", NatToString(userId), IntToString(categoryId)]);
    Clicked3(ArtistSearchId(userId, categoryId), "MuRSA", userId, IntToString(categoryId), values, ArtistSearch);
    ArtistSearchBranch(["MuRSA", NatToString(userId), IntToString(categoryId)], values);
  }

  /** An artist search entry reaches the selection of that artist in that category. */
  lemma ArtistSearchRoundTrip(userId: nat, categoryId: int, artistId: string)
    requires userId <= UInt64Max && IsInt32(categoryId) && '/' !in artistId
    ensures HandleComponent(ArtistSearchId(userId, categoryId), [ArtistValue(categoryId, artistId)], userId).outcome
            == Dispatched(SelectArtist(categoryId, artistId))
  {
    ArtistSearchClicked(userId, categoryId, [ArtistValue(categoryId, artistId)]);
    DecodeArtistValue(categoryId, artistId);
  }

  lemma ArtistConfirmClicked(userId: nat, categoryId: int, artistId: string)
    requires userId <= UInt64Max && '/' !in artistId
    ensures HandleComponent(ArtistConfirmId(userId, categoryId, artistId), [], userId).outcome
            == RequestArtistFrom(["MuRCA", NatToString(userId), IntToString(categoryId), artistId])
  {
    KindMurca(["MuRCA", NatToString(userId), IntToString(categoryId), artistId]);
    Clicked4(ArtistConfirmId(userId, categoryId, artistId), "MuRCA", userId, IntToString(categoryId), artistId, [], ArtistConfirm);
    ArtistConfirmBranch(["MuRCA", NatToString(userId), IntToString(categoryId), artistId], []);
  }

  /** The artist request button reaches the request of that artist in that category. */
  lemma ArtistConfirmRoundTrip(userId: nat, categoryId: int, artistId: string)
    requires userId <= UInt64Max && IsInt32(categoryId) && '/' !in artistId
    ensures HandleComponent(ArtistConfirmId(userId, categoryId, artistId), [], userId).outcome
            == Dispatched(RequestArtist(categoryId, artistId))
  {
    ArtistConfirmClicked(userId, categoryId, artistId);
    DecodeArtistConfirm(["MuRCA", NatToString(userId), IntToString(categoryId), artistId], categoryId, artistId);
  }

  lemma ArtistNotifyClicked(userId: nat, artistId: string)
    requires userId <= UInt64Max && '/' !in artistId
    ensures HandleComponent(ArtistNotifyId(userId, artistId), [], userId).outcome
            == NotifyArtistFrom(["MuNR", NatToString(userId), artistId])
  {
    KindMunr(["MuNR", NatToString(userId), artistId]);
    Clicked3(ArtistNotifyId(userId, artistId), "MuNR", userId, artistId, [], ArtistNotify);
    ArtistNotifyBranch(["MuNR", NatToString(userId), artistId], []);
  }

  /** The artist notify-me button reaches the notification for that user and artist. */
  lemma ArtistNotifyRoundTrip(userId: nat, artistId: string)
    requires userId <= UInt64Max && '/' !in artistId
    ensures HandleComponent(ArtistNotifyId(userId, artistId), [], userId).outcome
            == Dispatched(NotifyArtist(NatToString(userId), artistId))
  {
    ArtistNotifyClicked(userId, artistId);
  }

  // ------------------------------------------------------------- terminal ids

  /** The buttons that end a conversation dispatch nothing, whoever clicks them. */
  lemma TerminalIgnored(values: seq<string>, userId: nat)
    ensures HandleComponent(TerminalId, values, userId).outcome == Ignored
  {
    TerminalFields();
  }

  lemma TerminalFields()
    ensures Split(TerminalId, '/') == ["0", "1", "0"]
    ensures ParseUInt64("1") == Some(1)
    ensures KindOf(LowerStr(TerminalId)) == Unrouted
  {
    assert TerminalId == Fields(["0", "1", "0"]);
    FieldsSplit(["0", "1", "0"]);
    assert NatToString(1) == "1";
    ParseUInt64RoundTrip(1);
    UnroutedAt(LowerStr(TerminalId));
  }

  // ------------------------------------------------------------- modal buttons

  /** A button whose id ends in `/Modal` is not answered with the update response. */
  lemma ModalNotAcknowledged(init: seq<string>, values: seq<string>, userId: nat)
    requires |init| >= 1
    ensures !HandleComponent(Fields(init + ["Modal"]), values, userId).acknowledged
  {
    var head := Fields(init) + "/";
    JoinSnoc(init, "Modal", "/");
    assert Fields(init + ["Modal"]) == head + "Modal";
    var low := LowerStr(head + "Modal");
    assert low == LowerStr(head) + "modal";
    ContainsSuffix(LowerStr(head), "modal");
  }

  lemma MovieIssueButtonNotAcknowledged(userId: nat, categoryId: int, movieId: int, issue: string, values: seq<string>)
    ensures !HandleComponent(MovieIssueButtonId(userId, categoryId, movieId, issue), values, userId).acknowledged
  {
    var init := ["MIRB", NatToString(userId), IntToString(categoryId), IntToString(movieId), issue];
    assert init + ["Modal"] == ["MIRB", NatToString(userId), IntToString(categoryId), IntToString(movieId), issue, "Modal"];
    ModalNotAcknowledged(init, values, userId);
  }

  lemma TvIssueButtonNotAcknowledged(userId: nat, categoryId: int, tvDbId: int, issue: string,
                                     seasonNumber: int, episodeNumber: int, values: seq<string>)
    ensures !HandleComponent(TvIssueButtonId(userId, categoryId, tvDbId, issue, seasonNumber, episodeNumber), values, userId).acknowledged
  {
    var init := ["TIRB", NatToString(userId), IntToString(categoryId), IntToString(tvDbId), issue,
                 IntToString(seasonNumber), IntToString(episodeNumber)];
    assert init + ["Modal"] == ["TIRB", NatToString(userId), IntToString(categoryId), IntToString(tvDbId), issue,
                                IntToString(seasonNumber), IntToString(episodeNumber), "Modal"];
    ModalNotAcknowledged(init, values, userId);
  }

  // ------------------------------------------------------------- the TV issue lists

  lemma SeasonListClicked(userId: nat, categoryId: int, tvDbId: int, issue: string, episodeNumber: int, values: seq<string>)
    requires userId <= UInt64Max && '/' !in issue
    ensures HandleComponent(TvIssueSeasonSelectId(userId, categoryId, tvDbId, issue, episodeNumber), values, userId).outcome
            == SelectTvIssueFrom(values)
  {
    Tirss(["TIRSS", NatToString(userId), IntToString(categoryId), IntToString(tvDbId), issue, IntToString(episodeNumber)]);
    Clicked6(TvIssueSeasonSelectId(userId, categoryId, tvDbId, issue, episodeNumber), "TIRSS", userId, IntToString(categoryId),
             IntToString(tvDbId), issue, IntToString(episodeNumber), values, TvIssueSelect);
    TvIssueSelectBranch(["TIRSS", NatToString(userId), IntToString(categoryId), IntToString(tvDbId), issue, IntToString(episodeNumber)], values);
  }

  /**
   * As written: choosing a season in the season list of a TV issue fails,
   * because the handler reads a category and a show from the value, which
   * holds only the season number.
   */
  lemma TvIssueSeasonListFails(userId: nat, categoryId: int, tvDbId: int, issue: string, episodeNumber: int, seasonNumber: int)
    requires userId <= UInt64Max && '/' !in issue
    ensures HandleComponent(TvIssueSeasonSelectId(userId, categoryId, tvDbId, issue, episodeNumber),
                            [IntToString(seasonNumber)], userId).outcome == Failed
  {
    SeasonListClicked(userId, categoryId, tvDbId, issue, episodeNumber, [IntToString(seasonNumber)]);
    OneFieldTvIssue(IntToString(seasonNumber));
  }

  lemma EpisodeListClicked(userId: nat, categoryId: int, tvDbId: int, issue: string, seasonNumber: int, values: seq<string>)
    requires userId <= UInt64Max && '/' !in issue
    ensures HandleComponent(TvIssueEpisodeSelectId(userId, categoryId, tvDbId, issue, seasonNumber), values, userId).outcome
            == SelectTvIssueFrom(values)
  {
    Tirse(["TIRSE", NatToString(userId), IntToString(categoryId), IntToString(tvDbId), issue, IntToString(seasonNumber)]);
    Clicked6(TvIssueEpisodeSelectId(userId, categoryId, tvDbId, issue, seasonNumber), "TIRSE", userId, IntToString(categoryId),
             IntToString(tvDbId), issue, IntToString(seasonNumber), values, TvIssueSelect);
    TvIssueSelectBranch(["TIRSE", NatToString(userId), IntToString(categoryId), IntToString(tvDbId), issue, IntToString(seasonNumber)], values);
  }

  /** As written: choosing an episode in the episode list of a TV issue fails in the same way. */
  lemma TvIssueEpisodeListFails(userId: nat, categoryId: int, tvDbId: int, issue: string, seasonNumber: int, episodeNumber: int)
    requires userId <= UInt64Max && '/' !in issue
    ensures HandleComponent(TvIssueEpisodeSelectId(userId, categoryId, tvDbId, issue, seasonNumber),
                            [IntToString(episodeNumber)], userId).outcome == Failed
  {
    EpisodeListClicked(userId, categoryId, tvDbId, issue, seasonNumber, [IntToString(episodeNumber)]);
    OneFieldTvIssue(IntToString(episodeNumber));
  }

  lemma IssueTypeListClicked(userId: nat, categoryId: int, tvDbId: int, seasonNumber: int, episodeNumber: int, values: seq<string>)
    requires userId <= UInt64Max
    ensures HandleComponent(TvIssueTypeSelectId(userId, categoryId, tvDbId, seasonNumber, episodeNumber), values, userId).outcome
            == SelectTvIssueFrom(values)
  {
    TirsSlash(["TIRS", NatToString(userId), IntToString(categoryId), IntToString(tvDbId),
               IntToString(seasonNumber), IntToString(episodeNumber)]);
    Clicked6(TvIssueTypeSelectId(userId, categoryId, tvDbId, seasonNumber, episodeNumber), "TIRS", userId, IntToString(categoryId),
             IntToString(tvDbId), IntToString(seasonNumber), IntToString(episodeNumber), values, TvIssueSelect);
    TvIssueSelectBranch(["TIRS", NatToString(userId), IntToString(categoryId), IntToString(tvDbId), IntToString(seasonNumber), IntToString(episodeNumber)], values);
  }

  /** As written: choosing an issue type for a TV show fails in the same way. */
  lemma TvIssueTypeListFails(userId: nat, categoryId: int, tvDbId: int, seasonNumber: int, episodeNumber: int, issue: int)
    requires userId <= UInt64Max
    ensures HandleComponent(TvIssueTypeSelectId(userId, categoryId, tvDbId, seasonNumber, episodeNumber),
                            [IntToString(issue)], userId).outcome == Failed
  {
    IssueTypeListClicked(userId, categoryId, tvDbId, seasonNumber, episodeNumber, [IntToString(issue)]);
    OneFieldTvIssue(IntToString(issue));
  }

  lemma TvIssueButtonClicked(userId: nat, categoryId: int, tvDbId: int, issue: string, seasonNumber: int, episodeNumber: int)
    requires userId <= UInt64Max && '/' !in issue
    ensures HandleComponent(TvIssueButtonId(userId, categoryId, tvDbId, issue, seasonNumber, episodeNumber), [], userId).outcome
            == SendTvIssueModalFrom(["TIRB", NatToString(userId), IntToString(categoryId), IntToString(tvDbId), issue,
                                     IntToString(seasonNumber), IntToString(episodeNumber), "Modal"])
  {
    KindTirb(["TIRB", NatToString(userId), IntToString(categoryId), IntToString(tvDbId), issue,
              IntToString(seasonNumber), IntToString(episodeNumber), "Modal"]);
    Clicked8(TvIssueButtonId(userId, categoryId, tvDbId, issue, seasonNumber, episodeNumber), "TIRB", userId,
             IntToString(categoryId), IntToString(tvDbId), issue, IntToString(seasonNumber), IntToString(episodeNumber), "Modal",
             [], TvIssueButton);
    TvIssueButtonBranch(["TIRB", NatToString(userId), IntToString(categoryId), IntToString(tvDbId), issue, IntToString(seasonNumber), IntToString(episodeNumber), "Modal"], []);
  }

  /**
   * As written: the TV issue submit button reaches the modal for that issue,
   * but without the season and episode the button carries.
   */
  lemma TvIssueButtonRoundTrip(userId: nat, categoryId: int, tvDbId: int, issue: string, seasonNumber: int, episodeNumber: int)
    requires userId <= UInt64Max && IsInt32(categoryId) && IsInt32(tvDbId) && '/' !in issue
    ensures HandleComponent(TvIssueButtonId(userId, categoryId, tvDbId, issue, seasonNumber, episodeNumber), [], userId).outcome
            == Dispatched(SendTvIssueModal(categoryId, tvDbId, issue, None, None))
  {
    TvIssueButtonClicked(userId, categoryId, tvDbId, issue, seasonNumber, episodeNumber);
    DecodeTvIssueButton(["TIRB", NatToString(userId), IntToString(categoryId), IntToString(tvDbId), issue,
                         IntToString(seasonNumber), IntToString(episodeNumber), "Modal"], categoryId, tvDbId, issue);
  }

  lemma FixedSeasonListClicked(userId: nat, categoryId: int, tvDbId: int, issue: string, episodeNumber: int, v: string)
    requires userId <= UInt64Max && '/' !in issue
    ensures var fields := ["TIRSS", NatToString(userId), IntToString(categoryId), IntToString(tvDbId), issue, IntToString(episodeNumber)];
            var low := LowerStr(Fields(fields));
            HandleComponentFixed(TvIssueSeasonSelectId(userId, categoryId, tvDbId, issue, episodeNumber), [v], userId).outcome
            == RouteFixed(low, fields, [v]) && StartsWith(low, "tirs") && StartsWith(low, "tirss")
  {
    Tirss(["TIRSS", NatToString(userId), IntToString(categoryId), IntToString(tvDbId), issue, IntToString(episodeNumber)]);
    ClickedFixed6(TvIssueSeasonSelectId(userId, categoryId, tvDbId, issue, episodeNumber), "TIRSS", userId,
                  IntToString(categoryId), IntToString(tvDbId), issue, IntToString(episodeNumber), [v]);
  }

  /** Corrected: the season list reaches the issue at the chosen season and the carried episode. */
  lemma FixedTvIssueSeasonList(userId: nat, categoryId: int, tvDbId: int, issue: string, episodeNumber: int, seasonNumber: int)
    requires userId <= UInt64Max && '/' !in issue
    requires IsInt32(categoryId) && IsInt32(tvDbId) && IsInt32(seasonNumber) && IsInt32(episodeNumber)
    ensures HandleComponentFixed(TvIssueSeasonSelectId(userId, categoryId, tvDbId, issue, episodeNumber),
                                 [IntToString(seasonNumber)], userId).outcome
            == Dispatched(SelectTvIssueLocation(categoryId, tvDbId, issue, seasonNumber, episodeNumber))
  {
    var fields := ["TIRSS", NatToString(userId), IntToString(categoryId), IntToString(tvDbId), issue, IntToString(episodeNumber)];
    FixedSeasonListClicked(userId, categoryId, tvDbId, issue, episodeNumber, IntToString(seasonNumber));
    FixedListBranch(LowerStr(Fields(fields)), fields, IntToString(seasonNumber));
    DecodeSeasonList(LowerStr(Fields(fields)), fields, categoryId, tvDbId, seasonNumber, episodeNumber);
  }

  lemma FixedEpisodeListClicked(userId: nat, categoryId: int, tvDbId: int, issue: string, seasonNumber: int, v: string)
    requires userId <= UInt64Max && '/' !in issue
    ensures var fields := ["TIRSE", NatToString(userId), IntToString(categoryId), IntToString(tvDbId), issue, IntToString(seasonNumber)];
            var low := LowerStr(Fields(fields));
            HandleComponentFixed(TvIssueEpisodeSelectId(userId, categoryId, tvDbId, issue, seasonNumber), [v], userId).outcome
            == RouteFixed(low, fields, [v]) && StartsWith(low, "tirs") && !StartsWith(low, "tirss") && StartsWith(low, "tirse")
  {
    Tirse(["TIRSE", NatToString(userId), IntToString(categoryId), IntToString(tvDbId), issue, IntToString(seasonNumber)]);
    ClickedFixed6(TvIssueEpisodeSelectId(userId, categoryId, tvDbId, issue, seasonNumber), "TIRSE", userId,
                  IntToString(categoryId), IntToString(tvDbId), issue, IntToString(seasonNumber), [v]);
  }

  /** Corrected: the episode list reaches the issue at the carried season and the chosen episode. */
  lemma FixedTvIssueEpisodeList(userId: nat, categoryId: int, tvDbId: int, issue: string, seasonNumber: int, episodeNumber: int)
    requires userId <= UInt64Max && '/' !in issue
    requires IsInt32(categoryId) && IsInt32(tvDbId) && IsInt32(seasonNumber) && IsInt32(episodeNumber)
    ensures HandleComponentFixed(TvIssueEpisodeSelectId(userId, categoryId, tvDbId, issue, seasonNumber),
                                 [IntToString(episodeNumber)], userId).outcome
            == Dispatched(SelectTvIssueLocation(categoryId, tvDbId, issue, seasonNumber, episodeNumber))
  {
    var fields := ["TIRSE", NatToString(userId), IntToString(categoryId), IntToString(tvDbId), issue, IntToString(seasonNumber)];
    FixedEpisodeListClicked(userId, categoryId, tvDbId, issue, seasonNumber, IntToString(episodeNumber));
    FixedListBranch(LowerStr(Fields(fields)), fields, IntToString(episodeNumber));
    DecodeEpisodeList(LowerStr(Fields(fields)), fields, categoryId, tvDbId, seasonNumber, episodeNumber);
  }

  lemma FixedIssueTypeListClicked(userId: nat, categoryId: int, tvDbId: int, seasonNumber: int, episodeNumber: int, v: string)
    requires userId <= UInt64Max
    ensures var fields := ["TIRS", NatToString(userId), IntToString(categoryId), IntToString(tvDbId),
                           IntToString(seasonNumber), IntToString(episodeNumber)];
            var low := LowerStr(Fields(fields));
            HandleComponentFixed(TvIssueTypeSelectId(userId, categoryId, tvDbId, seasonNumber, episodeNumber), [v], userId).outcome
            == RouteFixed(low, fields, [v]) && StartsWith(low, "tirs") && !StartsWith(low, "tirss") && !StartsWith(low, "tirse")
  {
    TirsSlash(["TIRS", NatToString(userId), IntToString(categoryId), IntToString(tvDbId),
               IntToString(seasonNumber), IntToString(episodeNumber)]);
    ClickedFixed6(TvIssueTypeSelectId(userId, categoryId, tvDbId, seasonNumber, episodeNumber), "TIRS", userId,
                  IntToString(categoryId), IntToString(tvDbId), IntToString(seasonNumber), IntToString(episodeNumber), [v]);
  }

  /** Corrected: the issue-type list reaches the chosen issue at the carried season and episode. */
  lemma FixedTvIssueTypeList(userId: nat, categoryId: int, tvDbId: int, seasonNumber: int, episodeNumber: int, issue: int)
    requires userId <= UInt64Max
    requires IsInt32(categoryId) && IsInt32(tvDbId) && IsInt32(seasonNumber) && IsInt32(episodeNumber)
    ensures HandleComponentFixed(TvIssueTypeSelectId(userId, categoryId, tvDbId, seasonNumber, episodeNumber),
                                 [IntToString(issue)], userId).outcome
            == Dispatched(SelectTvIssueLocation(categoryId, tvDbId, IntToString(issue), seasonNumber, episodeNumber))
  {
    var fields := ["TIRS", NatToString(userId), IntToString(categoryId), IntToString(tvDbId),
                   IntToString(seasonNumber), IntToString(episodeNumber)];
    FixedIssueTypeListClicked(userId, categoryId, tvDbId, seasonNumber, episodeNumber, IntToString(issue));
    FixedListBranch(LowerStr(Fields(fields)), fields, IntToString(issue));
    DecodeIssueTypeList(LowerStr(Fields(fields)), fields, categoryId, tvDbId, seasonNumber, episodeNumber, IntToString(issue));
  }

  lemma FixedTvIssueButtonClicked(userId: nat, categoryId: int, tvDbId: int, issue: string, seasonNumber: int, episodeNumber: int)
    requires userId <= UInt64Max && '/' !in issue
    ensures var fields := ["TIRB", NatToString(userId), IntToString(categoryId), IntToString(tvDbId), issue,
                           IntToString(seasonNumber), IntToString(episodeNumber), "Modal"];
            var low := LowerStr(Fields(fields));
            HandleComponentFixed(TvIssueButtonId(userId, categoryId, tvDbId, issue, seasonNumber, episodeNumber), [], userId).outcome
            == RouteFixed(low, fields, [])
  {
    ClickedFixed8(TvIssueButtonId(userId, categoryId, tvDbId, issue, seasonNumber, episodeNumber), "TIRB", userId,
                  IntToString(categoryId), IntToString(tvDbId), issue, IntToString(seasonNumber), IntToString(episodeNumber),
                  "Modal", []);
  }

  /** Corrected: the submit button passes the season and episode it carries on to the modal. */
  lemma FixedTvIssueButton(userId: nat, categoryId: int, tvDbId: int, issue: string, seasonNumber: int, episodeNumber: int)
    requires userId <= UInt64Max && '/' !in issue
    requires IsInt32(categoryId) && IsInt32(tvDbId) && IsInt32(seasonNumber) && IsInt32(episodeNumber)
    ensures HandleComponentFixed(TvIssueButtonId(userId, categoryId, tvDbId, issue, seasonNumber, episodeNumber), [], userId).outcome
            == Dispatched(SendTvIssueModal(categoryId, tvDbId, issue, Some(seasonNumber), Some(episodeNumber)))
  {
    var fields := ["TIRB", NatToString(userId), IntToString(categoryId), IntToString(tvDbId), issue,
                   IntToString(seasonNumber), IntToString(episodeNumber), "Modal"];
    FixedTvIssueButtonClicked(userId, categoryId, tvDbId, issue, seasonNumber, episodeNumber);
    Tirb(fields);
    FixedButtonBranch(LowerStr(Fields(fields)), fields);
    DecodeTvIssueButtonFixed(fields, categoryId, tvDbId, issue, seasonNumber, episodeNumber);
  }

  /** The correction changes nothing but the TV issue lists and the TV issue submit button. */
  lemma FixedAgreesElsewhere(id: string, values: seq<string>, userId: nat)
    requires !IsTvIssueLocationList(LowerStr(id), Split(id, '/'))
    requires !(KindOf(LowerStr(id)).TvIssueButton? && |Split(id, '/')| >= 7)
    ensures HandleComponentFixed(id, values, userId) == HandleComponent(id, values, userId)
  {
  }
}
