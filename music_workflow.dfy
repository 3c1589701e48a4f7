/**
 * The music requesting workflow: from what the music searcher finds to the
 * one user-interface call (or requester call) that answers each command.
 *
 * The searcher is a `Catalog` of what it returns for each query, the
 * requester's answer is a parameter, and every call the workflow makes on
 * the user interface, the notification workflow or the requester is a
 * `Directive` value, in the order the calls are made.
 */
module MusicWorkflow {
  import opened Wrappers
  import opened Text

  /** An artist as the searcher describes it; `downloadClientId` is "" when Lidarr does not know the artist. */
  datatype MusicArtist = MusicArtist(downloadClientId: string, artistId: string, artistName: string,
                                     available: bool, monitored: bool, requested: bool, posterPath: string)

  /** An album; release dates are ticks, `None` for a missing date. */
  datatype MusicAlbum = MusicAlbum(downloadClientAlbumId: Option<string>, albumId: string, albumTitle: string,
                                   artistId: Option<string>, artistName: Option<string>, releaseDate: Option<nat>,
                                   available: bool, monitored: bool, requested: bool, posterPath: string)

  /**
   * What the searcher answers: the artists found for a name, the artist
   * found for an id (`None` for null), and the albums listed for an artist
   * (which is handed over even when it is null).
   */
  datatype Catalog = Catalog(
    artistsNamed: string -> seq<MusicArtist>,
    artistWithId: string -> Option<MusicArtist>,
    albumsOf: Option<MusicArtist> -> seq<MusicAlbum>)

  /** The calls the workflow makes, in order. */
  datatype Directive =
    | WarnNoMusicArtistFound(query: string)
    | ShowMusicArtistSelection(artists: seq<MusicArtist>)
    | ShowMusicAlbumSelection(selectedArtist: Option<MusicArtist>, albums: seq<MusicAlbum>, page: int)
    | DisplayMusicArtistDetails(artist: MusicArtist)
    | WarnMusicArtistAlreadyAvailable(artist: MusicArtist)
    | NotifyForExistingRequest(userId: string, artist: MusicArtist)
    | DisplayMusicAlbumDetails(artist: MusicArtist, album: MusicAlbum)
    | WarnMusicAlbumAlreadyAvailable(artist: MusicArtist, album: MusicAlbum)
    | WarnMusicAlbumAlreadyRequested(artist: MusicArtist, album: MusicAlbum)
    | RequestArtist(requestedArtist: Option<MusicArtist>)
    | DisplayArtistRequestDenied(requestedArtist: Option<MusicArtist>)
    | DisplayArtistRequestSuccess(requestedArtist: Option<MusicArtist>)
    | NotifyForNewRequest(userId: string, requestedArtist: Option<MusicArtist>)
    | RequestAlbum(requestedArtist: Option<MusicArtist>, album: MusicAlbum)
    | DisplayMusicAlbumRequestDenied(requestedArtist: Option<MusicArtist>, album: MusicAlbum)
    | DisplayMusicAlbumRequestSuccess(requestedArtist: Option<MusicArtist>, album: MusicAlbum)
    /** The workflow dereferences a null artist and throws. */
    | NullArtistFault

  /** A call on the requester. */
  predicate IsRequesterCall(d: Directive)
  {
    d.RequestArtist? || d.RequestAlbum?
  }

  predicate CanBeRequested(artist: MusicArtist)
  {
    !artist.available && !artist.requested
  }

  predicate CanAlbumBeRequested(album: MusicAlbum)
  {
    !album.available && !album.requested
  }

  /** The name the searcher is asked for: dots become spaces. */
  function ArtistQuery(name: string): (q: string)
    ensures |q| == |name| && '.' !in q
    ensures forall i :: 0 <= i < |name| && name[i] != '.' ==> q[i] == name[i]
  {
    ReplaceChar(name, '.', ' ')
  }

  /** `FirstOrDefault(x => x.AlbumId == albumId)`. */
  function FindAlbum(albums: seq<MusicAlbum>, albumId: string): (r: Option<MusicAlbum>)
    ensures r.None? <==> forall i :: 0 <= i < |albums| ==> albums[i].albumId != albumId
    ensures r.Some? ==> exists i :: 0 <= i < |albums| && albums[i] == r.value && r.value.albumId == albumId
                                    && forall j :: 0 <= j < i ==> albums[j].albumId != albumId
  {
    if albums == [] then None
    else if albums[0].albumId == albumId then Some(albums[0])
    else
      var r := FindAlbum(albums[1..], albumId);
      if r.Some? then
        var i :| 0 <= i < |albums[1..]| && albums[1..][i] == r.value && r.value.albumId == albumId
                 && forall j :: 0 <= j < i ==> albums[1..][j].albumId != albumId;
        assert albums[i + 1] == r.value;
        r
      else r
  }

  // ------------------------------------------------------------- branches

  /**
   * `HandleMusicArtistRequestSelectionAsync`: exactly one call, the details
   * iff the artist can be requested, the available warning iff it is
   * available, and otherwise the existing-request notification; a null
   * artist throws.
   */
  function ArtistPath(artist: Option<MusicArtist>, userId: string): (r: seq<Directive>)
    ensures |r| == 1 && !IsRequesterCall(r[0])
    ensures artist.None? <==> r[0].NullArtistFault?
    ensures r[0].DisplayMusicArtistDetails? <==> artist.Some? && CanBeRequested(artist.value)
    ensures r[0].WarnMusicArtistAlreadyAvailable? <==> artist.Some? && artist.value.available
    ensures r[0].NotifyForExistingRequest? <==> artist.Some? && !artist.value.available && artist.value.requested
    ensures artist.Some? && !r[0].NullArtistFault? ==> r[0].artist == artist.value
    ensures r[0].NotifyForExistingRequest? ==> r[0].userId == userId
  {
    match artist
    case None => [NullArtistFault]
    case Some(a) =>
      if CanBeRequested(a) then [DisplayMusicArtistDetails(a)]
      else if a.available then [WarnMusicArtistAlreadyAvailable(a)]
      else [NotifyForExistingRequest(userId, a)]
  }

  /**
   * The album branch of `HandleMusicAlbumSelectionAsync`: the details iff
   * the album can be requested, the available warning iff it is available,
   * and otherwise the already-requested warning.
   */
  function AlbumPath(artist: MusicArtist, album: MusicAlbum): (r: Directive)
    ensures r.DisplayMusicAlbumDetails? <==> CanAlbumBeRequested(album)
    ensures r.WarnMusicAlbumAlreadyAvailable? <==> album.available
    ensures r.WarnMusicAlbumAlreadyRequested? <==> !album.available && album.requested
    ensures (r.DisplayMusicAlbumDetails? || r.WarnMusicAlbumAlreadyAvailable? || r.WarnMusicAlbumAlreadyRequested?)
            && r.artist == artist && r.album == album
  {
    if CanAlbumBeRequested(album) then DisplayMusicAlbumDetails(artist, album)
    else if album.available then WarnMusicAlbumAlreadyAvailable(artist, album)
    else WarnMusicAlbumAlreadyRequested(artist, album)
  }

  /**
   * `HandleMusicSelectionAsync`: an artist with albums gets the album
   * selection at page 0, one without goes down the artist path.
   */
  function Selection(artist: Option<MusicArtist>, albums: seq<MusicAlbum>, userId: string): (r: seq<Directive>)
    ensures |r| == 1 && !IsRequesterCall(r[0])
    ensures r[0].ShowMusicAlbumSelection? <==> |albums| > 0
    ensures |albums| > 0 ==> r[0] == ShowMusicAlbumSelection(artist, albums, 0)
    ensures |albums| == 0 ==> r == ArtistPath(artist, userId)
  {
    if |albums| > 0 then [ShowMusicAlbumSelection(artist, albums, 0)]
    else ArtistPath(artist, userId)
  }

  // -------------------------------------------------------------- commands

  /** `SearchMusicForArtistListAsync`: what the searcher found, warning when it found nothing. */
  function SearchArtistList(name: string, catalog: Catalog): (r: (seq<MusicArtist>, seq<Directive>))
    ensures r.0 == catalog.artistsNamed(ArtistQuery(name))
    ensures |r.0| == 0 ==> r.1 == [WarnNoMusicArtistFound(ArtistQuery(name))]
    ensures |r.0| > 0 ==> r.1 == []
  {
    var found := catalog.artistsNamed(ArtistQuery(name));
    (found, if |found| == 0 then [WarnNoMusicArtistFound(ArtistQuery(name))] else [])
  }

  /**
   * `SearchMusicForArtistAsync`: several artists give the artist selection,
   * a single one is selected at once, none leaves only the warning.
   */
  function SearchArtist(name: string, catalog: Catalog, userId: string): (r: seq<Directive>)
    ensures |r| == 1 && !IsRequesterCall(r[0])
    ensures r[0].WarnNoMusicArtistFound? <==> |catalog.artistsNamed(ArtistQuery(name))| == 0
    ensures r[0].ShowMusicArtistSelection? <==> |catalog.artistsNamed(ArtistQuery(name))| > 1
    ensures r[0].ShowMusicArtistSelection? ==> r[0].artists == catalog.artistsNamed(ArtistQuery(name))
    ensures var found := catalog.artistsNamed(ArtistQuery(name));
            |found| == 1 ==> r == Selection(Some(found[0]), catalog.albumsOf(Some(found[0])), userId)
  {
    var (found, warnings) := SearchArtistList(name, catalog);
    if |found| > 1 then warnings + [ShowMusicArtistSelection(found)]
    else if |found| == 1 then
      var artist := Some(found[0]);
      warnings + Selection(artist, catalog.albumsOf(artist), userId)
    else warnings
  }

  /** `HandleMusicArtistSelectionAsync`: the artist with that id, selected. */
  function HandleArtistSelection(artistId: string, catalog: Catalog, userId: string): (r: seq<Directive>)
    ensures r == Selection(catalog.artistWithId(artistId), catalog.albumsOf(catalog.artistWithId(artistId)), userId)
  {
    var artist := catalog.artistWithId(artistId);
    Selection(artist, catalog.albumsOf(artist), userId)
  }

  /**
   * `HandleMusicAlbumSelectionAsync`: a missing artist is warned about; "all"
   * (any case) or an album id the artist does not have goes down the artist
   * path; otherwise the album's own outcome.
   */
  function HandleAlbumSelection(artistId: string, albumId: string, catalog: Catalog, userId: string): (r: seq<Directive>)
    ensures |r| == 1 && !IsRequesterCall(r[0])
    ensures catalog.artistWithId(artistId).None? ==> r == [WarnNoMusicArtistFound(artistId)]
    ensures catalog.artistWithId(artistId).Some? && EqualsIgnoreCase(albumId, "all") ==>
              r == ArtistPath(catalog.artistWithId(artistId), userId)
    ensures catalog.artistWithId(artistId).Some? && !EqualsIgnoreCase(albumId, "all") ==>
              var album := FindAlbum(catalog.albumsOf(catalog.artistWithId(artistId)), albumId);
              r == if album.None? then ArtistPath(catalog.artistWithId(artistId), userId)
                   else [AlbumPath(catalog.artistWithId(artistId).value, album.value)]
  {
    var artist := catalog.artistWithId(artistId);
    if artist.None? then [WarnNoMusicArtistFound(artistId)]
    else if EqualsIgnoreCase(albumId, "all") then ArtistPath(artist, userId)
    else
      match FindAlbum(catalog.albumsOf(artist), albumId)
      case None => ArtistPath(artist, userId)
      case Some(album) => [AlbumPath(artist.value, album)]
  }

  /**
   * `RequestMusicArtistAsync`: the requester is asked first (even for a
   * null artist); a denial shows only the denial, otherwise the success is
   * shown and the new-request notification follows.
   */
  function RequestArtistCommand(artistId: string, catalog: Catalog, wasDenied: bool, userId: string): (r: seq<Directive>)
    ensures |r| >= 2 && r[0] == RequestArtist(catalog.artistWithId(artistId))
    ensures wasDenied ==> r[1..] == [DisplayArtistRequestDenied(catalog.artistWithId(artistId))]
    ensures !wasDenied ==> r[1..] == [DisplayArtistRequestSuccess(catalog.artistWithId(artistId)),
                                      NotifyForNewRequest(userId, catalog.artistWithId(artistId))]
  {
    var artist := catalog.artistWithId(artistId);
    if wasDenied then [RequestArtist(artist), DisplayArtistRequestDenied(artist)]
    else [RequestArtist(artist), DisplayArtistRequestSuccess(artist), NotifyForNewRequest(userId, artist)]
  }

  /**
   * `RequestMusicAlbumAsync`: an album id the artist does not have ends the
   * command without asking the requester; otherwise the requester is asked
   * and its answer shown.
   */
  function RequestAlbumCommand(artistId: string, albumId: string, catalog: Catalog, wasDenied: bool): (r: seq<Directive>)
    ensures var album := FindAlbum(catalog.albumsOf(catalog.artistWithId(artistId)), albumId);
            (album.None? <==> r == []) &&
            (album.Some? ==> |r| == 2 && r[0] == RequestAlbum(catalog.artistWithId(artistId), album.value)
                             && (wasDenied ==> r[1] == DisplayMusicAlbumRequestDenied(catalog.artistWithId(artistId), album.value))
                             && (!wasDenied ==> r[1] == DisplayMusicAlbumRequestSuccess(catalog.artistWithId(artistId), album.value)))
  {
    var artist := catalog.artistWithId(artistId);
    match FindAlbum(catalog.albumsOf(artist), albumId)
    case None => []
    case Some(album) =>
      if wasDenied then [RequestAlbum(artist, album), DisplayMusicAlbumRequestDenied(artist, album)]
      else [RequestAlbum(artist, album), DisplayMusicAlbumRequestSuccess(artist, album)]
  }

  /**
   * `ShowMusicAlbumPageAsync`: a missing artist is warned about, one without
   * albums goes down the artist path, otherwise the album selection at the
   * requested page.
   */
  function ShowAlbumPage(artistId: string, page: int, catalog: Catalog, userId: string): (r: seq<Directive>)
    ensures |r| == 1 && !IsRequesterCall(r[0])
    ensures catalog.artistWithId(artistId).None? ==> r == [WarnNoMusicArtistFound(artistId)]
    ensures catalog.artistWithId(artistId).Some? && |catalog.albumsOf(catalog.artistWithId(artistId))| == 0 ==>
              r == ArtistPath(catalog.artistWithId(artistId), userId)
    ensures catalog.artistWithId(artistId).Some? && |catalog.albumsOf(catalog.artistWithId(artistId))| > 0 ==>
              r == [ShowMusicAlbumSelection(catalog.artistWithId(artistId), catalog.albumsOf(catalog.artistWithId(artistId)), page)]
    ensures r[0].ShowMusicAlbumSelection? ==> r[0].page == page
  {
    var artist := catalog.artistWithId(artistId);
    if artist.None? then [WarnNoMusicArtistFound(artistId)]
    else
      var albums := catalog.albumsOf(artist);
      if |albums| == 0 then ArtistPath(artist, userId)
      else [ShowMusicAlbumSelection(artist, albums, page)]
  }

  // ------------------------------------------------------------ properties

  /** A search that finds one artist behaves as selecting that artist by its id, when the id finds it again. */
  lemma SingleResultIsSelection(name: string, catalog: Catalog, userId: string)
    requires |catalog.artistsNamed(ArtistQuery(name))| == 1
    requires var a := catalog.artistsNamed(ArtistQuery(name))[0]; catalog.artistWithId(a.artistId) == Some(a)
    ensures SearchArtist(name, catalog, userId) ==
            HandleArtistSelection(catalog.artistsNamed(ArtistQuery(name))[0].artistId, catalog, userId)
  {
  }

  /** The page shown for a known artist with albums is exactly the selection shown on the first visit, moved to `page`. */
  lemma PageZeroIsFirstVisit(artistId: string, catalog: Catalog, userId: string)
    requires catalog.artistWithId(artistId).Some? && |catalog.albumsOf(catalog.artistWithId(artistId))| > 0
    ensures ShowAlbumPage(artistId, 0, catalog, userId) == HandleArtistSelection(artistId, catalog, userId)
  {
  }

  /** Selecting the album "all" and selecting an album the artist lacks lead to the same answer. */
  lemma UnknownAlbumIsAll(artistId: string, albumId: string, catalog: Catalog, userId: string)
    requires catalog.artistWithId(artistId).Some?
    requires forall i :: 0 <= i < |catalog.albumsOf(catalog.artistWithId(artistId))| ==>
               catalog.albumsOf(catalog.artistWithId(artistId))[i].albumId != albumId
    ensures HandleAlbumSelection(artistId, albumId, catalog, userId) == HandleAlbumSelection(artistId, "all", catalog, userId)
  {
    assert EqualsIgnoreCase("all", "all");
  }

  /** Whatever album is chosen, asking to request it never reaches the requester unless the album belongs to the artist. */
  lemma RequesterOnlyForListedAlbum(artistId: string, albumId: string, catalog: Catalog, wasDenied: bool, i: nat)
    requires i < |RequestAlbumCommand(artistId, albumId, catalog, wasDenied)|
    requires IsRequesterCall(RequestAlbumCommand(artistId, albumId, catalog, wasDenied)[i])
    ensures exists j :: 0 <= j < |catalog.albumsOf(catalog.artistWithId(artistId))|
                        && catalog.albumsOf(catalog.artistWithId(artistId))[j].albumId == albumId
  {
  }
}
