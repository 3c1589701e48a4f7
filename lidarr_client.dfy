/**
 * The deterministic rules of the Lidarr client: the base-URL check and the
 * URL built from the settings, which albums count as full albums, how
 * Lidarr and MusicBrainz answers become artists and albums, the order
 * albums are listed in, the MusicBrainz paging loop, and what a request
 * sends to Lidarr.
 *
 * HTTP and JSON are not part of this model: each answer is a parameter,
 * already decoded, with a JSON null as `None`.
 */
module LidarrClient {
  import opened Wrappers
  import opened Text
  import opened MusicWorkflow
  import opened Sequences

  /** The connection part of the Lidarr settings; a null base URL is "". */
  datatype ConnectionSettings = ConnectionSettings(hostname: string, port: int, apiKey: string, baseUrl: string,
                                                   useSsl: bool, version: string)

  // -------------------------------------------------------------- base URL

  /** `TestConnectionAsync`'s first check: a base URL is blank or starts with "/". */
  predicate ValidBaseUrl(baseUrl: string)
  {
    IsBlank(baseUrl) || StartsWith(baseUrl, "/")
  }

  /** What the connection test does first: reject the base URL, or ask Lidarr for its host configuration. */
  datatype ConnectionTest = InvalidBaseUrl | GetHostConfig(url: string)

  /** A concatenation starts with its first part and ends with its second. */
  lemma Parts(a: string, b: string)
    ensures StartsWith(a + b, a) && |a + b| >= |b| && (a + b)[|a + b| - |b|..] == b
  {
    assert (a + b)[..|a|] == a;
    assert (a + b)[|a + b| - |b|..] == b;
  }

  /** The two schemes differ in their fifth character. */
  lemma Schemes(rest: string)
    ensures StartsWith("https://" + rest, "https://") && !StartsWith("http://" + rest, "https://")
  {
    Parts("https://", rest);
    assert ("http://" + rest)[4] == ':';
  }

  /** The shape of any URL built as scheme, host, base URL, "/api/v" and version. */
  lemma UrlShape(scheme: string, host: string, baseUrl: string, version: string)
    ensures var r := scheme + host + (baseUrl + "/api/v" + version);
            StartsWith(r, scheme + host) && StartsWith(r, scheme) &&
            |r| >= 6 + |version| && r[|r| - 6 - |version|..] == "/api/v" + version
  {
    var tail := baseUrl + "/api/v" + version;
    Parts(scheme + host, tail);
    Parts(scheme, host + tail);
    Assoc(scheme, host, tail);
    Parts(baseUrl, "/api/v" + version);
    assert tail == baseUrl + ("/api/v" + version);
  }

  /** `BaseURL`: the scheme, host and port, the base URL, then "/api/v" and the version. */
  function GetBaseUrl(settings: ConnectionSettings): (r: string)
    ensures StartsWith(r, "https://") <==> settings.useSsl
    ensures StartsWith(r, (if settings.useSsl then "https://" else "http://") + settings.hostname + ":" + IntToString(settings.port))
    ensures |r| >= 6 + |settings.version| && r[|r| - 6 - |settings.version|..] == "/api/v" + settings.version
  {
    var scheme := if settings.useSsl then "https://" else "http://";
    var host := settings.hostname + ":" + IntToString(settings.port);
    UrlShape(scheme, host, settings.baseUrl, settings.version);
    Schemes(host + (settings.baseUrl + "/api/v" + settings.version));
    Assoc(scheme, host, settings.baseUrl + "/api/v" + settings.version);
    scheme + host + (settings.baseUrl + "/api/v" + settings.version)
  }

  /** The connection test never reaches Lidarr with a base URL that is neither blank nor rooted. */
  function TestConnection(settings: ConnectionSettings): (r: ConnectionTest)
    ensures r.InvalidBaseUrl? <==> !ValidBaseUrl(settings.baseUrl)
    ensures r.GetHostConfig? ==> StartsWith(r.url, GetBaseUrl(settings))
  {
    if !ValidBaseUrl(settings.baseUrl) then InvalidBaseUrl
    else
      Parts(GetBaseUrl(settings), "/config/host");
      GetHostConfig(GetBaseUrl(settings) + "/config/host")
  }

  // ------------------------------------------------------------ full albums

  /** What `IsFullAlbum` looks at, in both Lidarr's and MusicBrainz's answers. */
  datatype AlbumKind = AlbumKind(primaryType: Option<string>, secondaryTypes: Option<seq<string>>)

  predicate IsEpOrSingle(secondaryType: string)
  {
    EqualsIgnoreCase(secondaryType, "EP") || EqualsIgnoreCase(secondaryType, "Single")
  }

  /** `IsFullAlbum`: the primary type is "Album" in any case and no secondary type is EP or Single. */
  function IsFullAlbum(kind: AlbumKind): (r: bool)
    ensures r <==> kind.primaryType.Some? && EqualsIgnoreCase(kind.primaryType.value, "Album")
                   && (kind.secondaryTypes.None? ||
                       forall i :: 0 <= i < |kind.secondaryTypes.value| ==> !IsEpOrSingle(kind.secondaryTypes.value[i]))
  {
    if kind.primaryType.None? || !EqualsIgnoreCase(kind.primaryType.value, "Album") then false
    else if kind.secondaryTypes.Some? && AnyEpOrSingle(kind.secondaryTypes.value) then false
    else true
  }

  function AnyEpOrSingle(types: seq<string>): (r: bool)
    ensures r <==> exists i :: 0 <= i < |types| && IsEpOrSingle(types[i])
  {
    if types == [] then false
    else if IsEpOrSingle(types[0]) then true
    else
      var r := AnyEpOrSingle(types[1..]);
      assert forall i :: 1 <= i < |types| ==> types[i] == types[1..][i - 1];
      r
  }

  // ------------------------------------------------------- answers to model

  datatype Image = Image(url: string, coverType: string, remoteUrl: Option<string>)

  /** `GetPosterImageUrl`: the first poster (any case), its non-blank remote URL or else its URL; "" without one. */
  function PosterUrl(images: seq<Image>): (r: string)
    ensures (forall i :: 0 <= i < |images| ==> !EqualsIgnoreCase(images[i].coverType, "poster")) ==> r == ""
    ensures |images| > 0 && EqualsIgnoreCase(images[0].coverType, "poster") ==>
              r == if images[0].remoteUrl.Some? && !IsBlank(images[0].remoteUrl.value) then images[0].remoteUrl.value
                   else images[0].url
    ensures |images| > 0 && !EqualsIgnoreCase(images[0].coverType, "poster") ==> r == PosterUrl(images[1..])
  {
    if images == [] then ""
    else if EqualsIgnoreCase(images[0].coverType, "poster") then
      if images[0].remoteUrl.Some? && !IsBlank(images[0].remoteUrl.value) then images[0].remoteUrl.value
      else images[0].url
    else PosterUrl(images[1..])
  }

  /** A poster listed after other images is still found, and only the first poster counts. */
  lemma {:induction false} PosterSkipsOthers(others: seq<Image>, poster: Image, rest: seq<Image>)
    requires forall i :: 0 <= i < |others| ==> !EqualsIgnoreCase(others[i].coverType, "poster")
    requires EqualsIgnoreCase(poster.coverType, "poster")
    ensures PosterUrl(others + [poster] + rest) ==
            if poster.remoteUrl.Some? && !IsBlank(poster.remoteUrl.value) then poster.remoteUrl.value else poster.url
    decreases |others|
  {
    var all := others + [poster] + rest;
    if others == [] {
      assert all[0] == poster;
    } else {
      assert all[0] == others[0];
      assert all[1..] == others[1..] + [poster] + rest;
      PosterSkipsOthers(others[1..], poster, rest);
    }
  }

  /** A Lidarr artist; `sizeOnDisk` is `None` when the statistics are missing. */
  datatype LidarrArtist = LidarrArtist(id: Option<int>, foreignArtistId: string, artistName: string,
                                       sizeOnDisk: Option<real>, monitored: bool, images: seq<Image>)

  /**
   * `ConvertToMusic`: available iff something is on disk, requested iff
   * monitored or (unknown to Lidarr and new requests are not monitored).
   */
  function ConvertToMusic(artist: LidarrArtist, monitorNewRequests: bool): (r: MusicArtist)
    ensures r.available <==> artist.sizeOnDisk.Some? && artist.sizeOnDisk.value > 0.0
    ensures r.requested <==> artist.monitored || (artist.id.None? && !monitorNewRequests)
    ensures r.monitored == artist.monitored && r.artistId == artist.foreignArtistId
    ensures IsBlank(r.downloadClientId) <==> artist.id.None?
    ensures r.posterPath == PosterUrl(artist.images)
  {
    var downloadClientId := if artist.id.Some? then IntToString(artist.id.value) else "";
    assert artist.id.Some? ==> !IsWhiteSpace(downloadClientId[0]);
    var size := if artist.sizeOnDisk.Some? then artist.sizeOnDisk.value else -1.0;
    MusicArtist(downloadClientId, artist.foreignArtistId, artist.artistName, size > 0.0, artist.monitored,
                if !artist.monitored && (!IsBlank(downloadClientId) || monitorNewRequests) then artist.monitored else true,
                PosterUrl(artist.images))
  }

  /** The artist an album names, as Lidarr sends it. */
  datatype AlbumArtist = AlbumArtist(artistName: Option<string>, foreignArtistId: string)

  /** A Lidarr album; `releaseDate` 0 is `DateTime`'s default, `trackFileCount` `None` without statistics. */
  datatype LidarrAlbum = LidarrAlbum(id: Option<int>, foreignAlbumId: string, title: string, kind: AlbumKind,
                                     artist: Option<AlbumArtist>, trackFileCount: Option<int>, grabbed: bool,
                                     monitored: bool, releaseDate: nat, images: seq<Image>)

  /** The fallback's name and id, for an album without its own artist. */
  function FallbackName(fallback: Option<MusicArtist>): Option<string>
  {
    if fallback.Some? then Some(fallback.value.artistName) else None
  }

  function FallbackId(fallback: Option<MusicArtist>): Option<string>
  {
    if fallback.Some? then Some(fallback.value.artistId) else None
  }

  /**
   * `ConvertToAlbum` for Lidarr: available iff a track file exists or the
   * album was grabbed, requested iff monitored, and the default date is no
   * date; the album's own artist wins over the fallback.
   */
  function ConvertLidarrAlbum(album: LidarrAlbum, fallback: Option<MusicArtist>): (r: MusicAlbum)
    ensures r.available <==> (album.trackFileCount.Some? && album.trackFileCount.value > 0) || album.grabbed
    ensures r.requested == album.monitored && r.monitored == album.monitored
    ensures r.releaseDate.None? <==> album.releaseDate == 0
    ensures r.releaseDate.Some? ==> r.releaseDate.value == album.releaseDate
    ensures r.downloadClientAlbumId.None? <==> album.id.None?
    ensures album.artist.None? ==> r.artistId == FallbackId(fallback)
    ensures album.artist.Some? ==> r.artistId == Some(album.artist.value.foreignArtistId)
    ensures r.albumId == album.foreignAlbumId && r.posterPath == PosterUrl(album.images)
  {
    var name := if album.artist.Some? && album.artist.value.artistName.Some? then album.artist.value.artistName
                else FallbackName(fallback);
    var artistId := if album.artist.Some? then Some(album.artist.value.foreignArtistId) else FallbackId(fallback);
    var trackFiles := if album.trackFileCount.Some? then album.trackFileCount.value else 0;
    MusicAlbum(if album.id.Some? then Some(IntToString(album.id.value)) else None,
               album.foreignAlbumId, album.title, artistId, name,
               if album.releaseDate == 0 then None else Some(album.releaseDate),
               trackFiles > 0 || album.grabbed, album.monitored, album.monitored, PosterUrl(album.images))
  }

  /** One credited artist of a MusicBrainz release group. */
  datatype Credit = Credit(name: Option<string>, artistId: Option<string>)

  /** A MusicBrainz release group; its first release date is taken as already parsed. */
  datatype ReleaseGroup = ReleaseGroup(id: string, title: string, firstReleaseDate: Option<nat>, kind: AlbumKind,
                                       artistCredit: Option<seq<Credit>>)

  /**
   * `ConvertToAlbum` for MusicBrainz: never available, monitored or
   * requested, and unknown to Lidarr; the first credit's name and id win
   * over the fallback's.
   */
  function ConvertReleaseGroup(group: ReleaseGroup, fallback: Option<MusicArtist>): (r: MusicAlbum)
    ensures !r.available && !r.monitored && !r.requested && r.downloadClientAlbumId.None?
    ensures r.albumId == group.id && r.albumTitle == group.title && r.releaseDate == group.firstReleaseDate
    ensures group.artistCredit.None? || |group.artistCredit.value| == 0 ==>
              r.artistName == FallbackName(fallback) && r.artistId == FallbackId(fallback)
    ensures group.artistCredit.Some? && |group.artistCredit.value| > 0 ==>
              var first := group.artistCredit.value[0];
              r.artistName == (if first.name.Some? then first.name else FallbackName(fallback)) &&
              r.artistId == (if first.artistId.Some? then first.artistId else FallbackId(fallback))
  {
    var first := if group.artistCredit.Some? && |group.artistCredit.value| > 0 then Some(group.artistCredit.value[0]) else None;
    var name := if first.Some? && first.value.name.Some? then first.value.name else FallbackName(fallback);
    var artistId := if first.Some? && first.value.artistId.Some? then first.value.artistId else FallbackId(fallback);
    MusicAlbum(None, group.id, group.title, artistId, name, group.firstReleaseDate, false, false, false, "")
  }

  // ------------------------------------------------------------- listing

  /** `ReleaseDate ?? DateTime.MinValue`, in ticks. */
  function DateKey(album: MusicAlbum): nat
  {
    if album.releaseDate.Some? then album.releaseDate.value else 0
  }

  predicate NewestFirst(albums: seq<MusicAlbum>)
  {
    forall i, j :: 0 <= i < j < |albums| ==> DateKey(albums[i]) >= DateKey(albums[j])
  }

  lemma NewestFirstCons(a: MusicAlbum, rest: seq<MusicAlbum>)
    requires NewestFirst(rest) && forall j :: 0 <= j < |rest| ==> DateKey(a) >= DateKey(rest[j])
    ensures NewestFirst([a] + rest)
  {
    var s := [a] + rest;
    forall i, j | 0 <= i < j < |s| ensures DateKey(s[i]) >= DateKey(s[j]) {
      assert s[j] == rest[j - 1];
      if i > 0 { assert s[i] == rest[i - 1]; }
    }
  }

  /** The albums of a list whose date key is `d`, in their order. */
  function Dated(s: seq<MusicAlbum>, d: nat): (r: seq<MusicAlbum>)
    ensures forall k :: 0 <= k < |r| ==> DateKey(r[k]) == d
    ensures forall k :: 0 <= k < |s| && DateKey(s[k]) == d ==> s[k] in r
  {
    if s == [] then []
    else
      var rest := Dated(s[1..], d);
      if DateKey(s[0]) == d then [s[0]] + rest
      else
        assert forall k :: 1 <= k < |s| ==> s[k] == s[1..][k - 1];
        rest
  }

  /** The albums of a date are a subsequence of the list: none is added and their order is kept. */
  lemma {:induction false} DatedSubsequence(s: seq<MusicAlbum>, d: nat)
    ensures IsSubsequence(Dated(s, d), s)
  {
    if s != [] {
      DatedSubsequence(s[1..], d);
      if DateKey(s[0]) == d {
        assert ([s[0]] + Dated(s[1..], d))[1..] == Dated(s[1..], d);
      }
    }
  }

  lemma DatedCons(a: MusicAlbum, s: seq<MusicAlbum>, d: nat)
    ensures Dated([a] + s, d) == (if DateKey(a) == d then [a] else []) + Dated(s, d)
  {
    assert ([a] + s)[0] == a && ([a] + s)[1..] == s;
  }

  /** Inserting an album in front of every album no newer than it. */
  function InsertByDate(a: MusicAlbum, s: seq<MusicAlbum>): (r: seq<MusicAlbum>)
    requires NewestFirst(s)
    ensures NewestFirst(r) && multiset(r) == multiset(s) + multiset{a}
  {
    if s == [] || DateKey(s[0]) <= DateKey(a) then
      NewestFirstCons(a, s);
      [a] + s
    else
      var rest := InsertByDate(a, s[1..]);
      assert s == [s[0]] + s[1..];
      forall j | 0 <= j < |rest| ensures DateKey(s[0]) >= DateKey(rest[j]) {
        assert rest[j] in multiset(rest);
        if rest[j] != a {
          assert rest[j] in multiset(s[1..]);
          var i :| 0 <= i < |s[1..]| && s[1..][i] == rest[j];
          assert s[i + 1] == rest[j];
        }
      }
      NewestFirstCons(s[0], rest);
      [s[0]] + rest
  }

  /** The inserted album comes before the albums of its date that were already there. */
  lemma {:induction false} InsertDated(a: MusicAlbum, s: seq<MusicAlbum>, d: nat)
    requires NewestFirst(s)
    ensures Dated(InsertByDate(a, s), d) == (if DateKey(a) == d then [a] else []) + Dated(s, d)
  {
    if s == [] || DateKey(s[0]) <= DateKey(a) {
      DatedCons(a, s, d);
    } else {
      var rest := InsertByDate(a, s[1..]);
      assert InsertByDate(a, s) == [s[0]] + rest;
      InsertDated(a, s[1..], d);
      DatedCons(s[0], rest, d);
    }
  }

  /**
   * `OrderByDescending(x => x.ReleaseDate ?? DateTime.MinValue)`: newest
   * first, the same albums, and (the sort being stable) albums of equal
   * date in their input order.
   */
  function ByDateDescending(albums: seq<MusicAlbum>): (r: seq<MusicAlbum>)
    ensures NewestFirst(r) && multiset(r) == multiset(albums) && |r| == |albums|
    ensures forall d :: Dated(r, d) == Dated(albums, d)
  {
    if albums == [] then []
    else
      assert albums == [albums[0]] + albums[1..];
      var r := InsertByDate(albums[0], ByDateDescending(albums[1..]));
      forall d ensures Dated(r, d) == Dated(albums, d) {
        InsertDated(albums[0], ByDateDescending(albums[1..]), d);
        DatedCons(albums[0], albums[1..], d);
      }
      r
  }

  /** An album is among the albums of date `d` exactly when it is in the list and has that date. */
  lemma {:induction false} DatedHas(s: seq<MusicAlbum>, d: nat, x: MusicAlbum)
    ensures x in Dated(s, d) <==> x in s && DateKey(x) == d
  {
    if s != [] {
      DatedHas(s[1..], d, x);
      DatedCons(s[0], s[1..], d);
      assert s == [s[0]] + s[1..];
    }
  }

  /** The head of a newest-first list is at least as new as any album in it. */
  lemma HeadNewest(r: seq<MusicAlbum>, x: MusicAlbum)
    requires NewestFirst(r) && x in r
    ensures DateKey(r[0]) >= DateKey(x)
  {
    var i :| 0 <= i < |r| && r[i] == x;
    assert i == 0 || DateKey(r[0]) >= DateKey(r[i]);
  }

  lemma NewestFirstTail(r: seq<MusicAlbum>)
    requires NewestFirst(r) && r != []
    ensures NewestFirst(r[1..])
  {
    forall i, j | 0 <= i < j < |r[1..]| ensures DateKey(r[1..][i]) >= DateKey(r[1..][j]) {
      assert r[1..][i] == r[i + 1] && r[1..][j] == r[j + 1];
    }
  }

  /** Two newest-first lists with the same albums per date start with the same album. */
  lemma SameHead(r1: seq<MusicAlbum>, r2: seq<MusicAlbum>)
    requires NewestFirst(r1) && NewestFirst(r2) && r1 != [] && r2 != []
    requires forall d :: Dated(r1, d) == Dated(r2, d)
    ensures r1[0] == r2[0]
  {
    var k1, k2 := DateKey(r1[0]), DateKey(r2[0]);
    DatedHas(r1, k1, r1[0]);
    assert Dated(r1, k1) == Dated(r2, k1);
    DatedHas(r2, k1, r1[0]);
    HeadNewest(r2, r1[0]);
    DatedHas(r2, k2, r2[0]);
    assert Dated(r1, k2) == Dated(r2, k2);
    DatedHas(r1, k2, r2[0]);
    HeadNewest(r1, r2[0]);
    assert k1 == k2;
    DatedCons(r1[0], r1[1..], k1);
    DatedCons(r2[0], r2[1..], k1);
    assert r1 == [r1[0]] + r1[1..] && r2 == [r2[0]] + r2[1..];
    assert Dated(r1, k1)[0] == r1[0] && Dated(r2, k1)[0] == r2[0];
  }

  /**
   * Newest first with the albums of each date in a fixed order pins the
   * list down: two such lists are equal, so the date sort has exactly one
   * possible result.
   */
  lemma {:induction false} NewestFirstUnique(r1: seq<MusicAlbum>, r2: seq<MusicAlbum>)
    requires NewestFirst(r1) && NewestFirst(r2)
    requires forall d :: Dated(r1, d) == Dated(r2, d)
    ensures r1 == r2
  {
    if r1 == [] || r2 == [] {
      var r := if r1 == [] then r2 else r1;
      if r != [] {
        DatedHas(r, DateKey(r[0]), r[0]);
      }
    } else {
      SameHead(r1, r2);
      assert r1 == [r1[0]] + r1[1..] && r2 == [r2[0]] + r2[1..];
      forall d ensures Dated(r1[1..], d) == Dated(r2[1..], d) {
        DatedCons(r1[0], r1[1..], d);
        DatedCons(r2[0], r2[1..], d);
        var p := if DateKey(r1[0]) == d then [r1[0]] else [];
        assert Dated(r1, d) == Dated(r2, d);
        assert Dated(r1[1..], d) == Dated(r1, d)[|p|..];
        assert Dated(r2[1..], d) == Dated(r2, d)[|p|..];
      }
      NewestFirstTail(r1);
      NewestFirstTail(r2);
      NewestFirstUnique(r1[1..], r2[1..]);
    }
  }

  /**
   * The date sort is the stable sort: any newest-first arrangement that
   * keeps the albums of each date in their input order is its result.
   */
  lemma StableDateSort(albums: seq<MusicAlbum>, r: seq<MusicAlbum>)
    requires NewestFirst(r) && forall d :: Dated(r, d) == Dated(albums, d)
    ensures r == ByDateDescending(albums)
  {
    NewestFirstUnique(r, ByDateDescending(albums));
  }

  /** An album without a date is listed after every album with a later-than-minimum date. */
  lemma UndatedLast(albums: seq<MusicAlbum>, i: nat, j: nat)
    requires i < |ByDateDescending(albums)| && j < |ByDateDescending(albums)|
    requires ByDateDescending(albums)[i].releaseDate.None?
    requires ByDateDescending(albums)[j].releaseDate.Some? && ByDateDescending(albums)[j].releaseDate.value > 0
    ensures j < i
  {
  }

  /** `Where(x => x != null && IsFullAlbum(x))`: the full albums of a Lidarr answer, in order. */
  function FullAlbums(albums: seq<Option<LidarrAlbum>>): (r: seq<LidarrAlbum>)
    ensures |r| <= |albums|
    ensures forall a :: a in r ==> Some(a) in albums && IsFullAlbum(a.kind)
    ensures forall i :: 0 <= i < |albums| && albums[i].Some? && IsFullAlbum(albums[i].value.kind) ==> albums[i].value in r
  {
    if albums == [] then []
    else
      var rest := FullAlbums(albums[1..]);
      assert forall i :: 1 <= i < |albums| ==> albums[i] == albums[1..][i - 1];
      assert forall a :: a in rest ==> Some(a) in albums[1..];
      if albums[0].Some? && IsFullAlbum(albums[0].value.kind) then [albums[0].value] + rest else rest
  }

  /** `Select(x => ConvertToAlbum(x, artist))`. */
  function ConvertAll(albums: seq<LidarrAlbum>, artist: Option<MusicArtist>): (r: seq<MusicAlbum>)
    ensures |r| == |albums| && forall i :: 0 <= i < |r| ==> r[i] == ConvertLidarrAlbum(albums[i], artist)
  {
    seq(|albums|, i requires 0 <= i < |albums| => ConvertLidarrAlbum(albums[i], artist))
  }

  /** The album listing for an artist Lidarr knows: its full albums, converted, newest first. */
  function LidarrListing(albums: seq<Option<LidarrAlbum>>, artist: Option<MusicArtist>): (r: seq<MusicAlbum>)
    ensures NewestFirst(r) && multiset(r) == multiset(ConvertAll(FullAlbums(albums), artist))
    ensures forall d :: Dated(r, d) == Dated(ConvertAll(FullAlbums(albums), artist), d)
  {
    ByDateDescending(ConvertAll(FullAlbums(albums), artist))
  }

  // ------------------------------------------------------ MusicBrainz paging

  const PageSize: nat := 100

  /** What one MusicBrainz fetch gives: a failure that throws, nothing (null), or a page. */
  datatype PageAnswer = FetchThrows | NoPage | Page(releaseGroups: Option<seq<ReleaseGroup>>, totalCount: int)

  /** `IsFullAlbum` and `ConvertToAlbum` over one page: its full albums, converted with the artist, in order. */
  function PageAlbums(groups: seq<ReleaseGroup>, artist: MusicArtist): (r: seq<MusicAlbum>)
    ensures |r| <= |groups|
    ensures forall k :: 0 <= k < |r| ==> !r[k].available && !r[k].requested && !r[k].monitored
    ensures FromFullAlbums(r, groups, artist)
    ensures CoversFullAlbums(r, groups, artist)
  {
    if groups == [] then []
    else
      var head := if IsFullAlbum(groups[0].kind) then [ConvertReleaseGroup(groups[0], Some(artist))] else [];
      var rest := PageAlbums(groups[1..], artist);
      PageAlbumsCons(groups, artist, rest);
      head + rest
  }

  /** Every album of `r` is the conversion of one of the full-album groups. */
  ghost predicate FromFullAlbums(r: seq<MusicAlbum>, groups: seq<ReleaseGroup>, artist: MusicArtist) {
    forall k :: 0 <= k < |r| ==>
      exists i :: 0 <= i < |groups| && IsFullAlbum(groups[i].kind)
                  && r[k] == ConvertReleaseGroup(groups[i], Some(artist))
  }

  /** The conversion of every full-album group is in `r`. */
  ghost predicate CoversFullAlbums(r: seq<MusicAlbum>, groups: seq<ReleaseGroup>, artist: MusicArtist) {
    forall i :: 0 <= i < |groups| && IsFullAlbum(groups[i].kind) ==>
      ConvertReleaseGroup(groups[i], Some(artist)) in r
  }

  /** The albums of a page's first group, then of the rest, come from and cover the page's full-album groups. */
  lemma PageAlbumsCons(groups: seq<ReleaseGroup>, artist: MusicArtist, rest: seq<MusicAlbum>)
    requires groups != []
    requires FromFullAlbums(rest, groups[1..], artist)
    requires CoversFullAlbums(rest, groups[1..], artist)
    ensures var head := if IsFullAlbum(groups[0].kind) then [ConvertReleaseGroup(groups[0], Some(artist))] else [];
            FromFullAlbums(head + rest, groups, artist) && CoversFullAlbums(head + rest, groups, artist)
  {
    var head := if IsFullAlbum(groups[0].kind) then [ConvertReleaseGroup(groups[0], Some(artist))] else [];
    var r := head + rest;
    forall k | 0 <= k < |r|
      ensures exists i :: 0 <= i < |groups| && IsFullAlbum(groups[i].kind)
                          && r[k] == ConvertReleaseGroup(groups[i], Some(artist))
    {
      if k < |head| {
        assert r[k] == ConvertReleaseGroup(groups[0], Some(artist));
      } else {
        assert r[k] == rest[k - |head|];
        var i :| 0 <= i < |groups[1..]| && IsFullAlbum(groups[1..][i].kind)
                 && rest[k - |head|] == ConvertReleaseGroup(groups[1..][i], Some(artist));
        assert groups[1..][i] == groups[i + 1];
      }
    }
    forall i | 0 <= i < |groups| && IsFullAlbum(groups[i].kind)
      ensures ConvertReleaseGroup(groups[i], Some(artist)) in r
    {
      if i > 0 {
        assert groups[i] == groups[1..][i - 1];
      }
    }
  }

  /** Pages of groups are converted independently, so a page's albums keep the groups' order. */
  lemma {:induction false} PageAlbumsConcat(a: seq<ReleaseGroup>, b: seq<ReleaseGroup>, artist: MusicArtist)
    ensures PageAlbums(a + b, artist) == PageAlbums(a, artist) + PageAlbums(b, artist)
  {
    if a == [] {
      assert a + b == b;
    } else {
      assert (a + b)[0] == a[0] && (a + b)[1..] == a[1..] + b;
      PageAlbumsConcat(a[1..], b, artist);
    }
  }

  /** A single release group contributes its conversion exactly when it is a full album. */
  lemma PageAlbumsSingle(g: ReleaseGroup, artist: MusicArtist)
    ensures PageAlbums([g], artist) == if IsFullAlbum(g.kind) then [ConvertReleaseGroup(g, Some(artist))] else []
  {
    assert [g][1..] == [];
  }

  /** The albums and requested offsets of a paging run. */
  datatype Paging = Paging(albums: seq<MusicAlbum>, offsets: seq<nat>)

  /** A page that ends the loop after its albums are kept: empty, null, or shorter than a full page. */
  predicate EmptyAnswer(answer: PageAnswer)
  {
    answer.NoPage? || (answer.Page? && (answer.releaseGroups.None? || |answer.releaseGroups.value| == 0))
  }

  /**
   * The paging loop from `offset` on, given the total fixed by the first
   * page: fetch, stop on a failure or an empty answer, keep the page's full
   * albums, stop after a short page, otherwise move on by a page while the
   * offset is below the total.
   */
  function Pages(fetch: nat -> PageAnswer, artist: MusicArtist, offset: nat, total: Option<int>): (r: Paging)
    ensures |r.offsets| >= (if total.None? || offset < total.value then 1 else 0)
    ensures forall k :: 0 <= k < |r.offsets| ==> r.offsets[k] == offset + PageSize * k
    ensures forall k :: 0 <= k < |r.albums| ==> !r.albums[k].available && !r.albums[k].requested && !r.albums[k].monitored
    decreases total.None?, if total.Some? then total.value - offset else 0
  {
    if total.Some? && offset >= total.value then Paging([], [])
    else
      var answer := fetch(offset);
      if answer.FetchThrows? || EmptyAnswer(answer) then Paging([], [offset])
      else
        var groups := answer.releaseGroups.value;
        var total' := if total.Some? then total else Some(answer.totalCount);
        var kept := PageAlbums(groups, artist);
        if |groups| < PageSize then Paging(kept, [offset])
        else
          var rest := Pages(fetch, artist, offset + PageSize, total');
          Paging(kept + rest.albums, [offset] + rest.offsets)
  }

  /** The paging loop itself, up to its last fetch or the failure that ends it. */
  method CollectPages(fetch: nat -> PageAnswer, artist: MusicArtist) returns (found: seq<MusicAlbum>, offsets: seq<nat>)
    ensures Paging(found, offsets) == Pages(fetch, artist, 0, None)
  {
    found := [];
    offsets := [];
    var offset: nat := 0;
    var totalCount: Option<int> := None;
    while totalCount.None? || offset < totalCount.value
      invariant Pages(fetch, artist, 0, None) ==
                Paging(found + Pages(fetch, artist, offset, totalCount).albums,
                       offsets + Pages(fetch, artist, offset, totalCount).offsets)
      decreases totalCount.None?, if totalCount.Some? then totalCount.value - offset else 0
    {
      ghost var rest := Pages(fetch, artist, offset, totalCount);
      ghost var before := offsets;
      var answer := fetch(offset);
      offsets := offsets + [offset];
      // a failing fetch ends the loop through the surrounding catch
      if answer.FetchThrows? || EmptyAnswer(answer) {
        assert rest == Paging([], [offset]);
        assert found + [] == found;
        return;
      }
      var groups := answer.releaseGroups.value;
      if totalCount.None? {
        totalCount := Some(answer.totalCount);
      }
      var page := PageAlbums(groups, artist);
      ghost var seen := found;
      found := found + page;
      if |groups| < PageSize {
        assert rest == Paging(page, [offset]);
        return;
      }
      offset := offset + PageSize;
      ghost var next := Pages(fetch, artist, offset, totalCount);
      assert rest == Paging(page + next.albums, [offset - PageSize] + next.offsets);
      Assoc(seen, page, next.albums);
      Assoc(before, [offset - PageSize], next.offsets);
    }
    assert found + [] == found && offsets + [] == offsets;
  }

  /**
   * `SearchMusicBrainzAlbumsForArtistAsync`: nothing for a null artist or
   * a blank artist id; otherwise the paging loop, whose albums (including
   * those gathered before a failure) are listed newest first.
   */
  method SearchMusicBrainzAlbums(fetch: nat -> PageAnswer, artist: Option<MusicArtist>)
    returns (albums: seq<MusicAlbum>, offsets: seq<nat>)
    ensures artist.None? || IsBlank(artist.value.artistId) ==> albums == [] && offsets == []
    ensures artist.Some? && !IsBlank(artist.value.artistId) ==>
              var run := Pages(fetch, artist.value, 0, None);
              offsets == run.offsets && albums == ByDateDescending(run.albums)
  {
    if artist.None? || IsBlank(artist.value.artistId) {
      return [], [];
    }
    var found;
    found, offsets := CollectPages(fetch, artist.value);
    albums := ByDateDescending(found);
  }

  /**
   * `SearchMusicAlbumsForArtistAsync`: an artist Lidarr knows is listed from
   * Lidarr, where a failed answer is an error; any other artist goes to
   * MusicBrainz.
   */
  method SearchAlbums(lidarrAnswer: Option<seq<Option<LidarrAlbum>>>, fetch: nat -> PageAnswer,
                      artist: Option<MusicArtist>) returns (r: Option<seq<MusicAlbum>>)
    ensures artist.Some? && !IsBlank(artist.value.downloadClientId) ==>
              r == if lidarrAnswer.Some? then Some(LidarrListing(lidarrAnswer.value, artist)) else None
    ensures artist.None? || IsBlank(artist.value.downloadClientId) ==>
              r == Some(if artist.None? || IsBlank(artist.value.artistId) then []
                        else ByDateDescending(Pages(fetch, artist.value, 0, None).albums))
    ensures artist.None? || IsBlank(artist.value.downloadClientId) ==>
              r.Some? && NewestFirst(r.value) && forall k :: 0 <= k < |r.value| ==> !r.value[k].available
  {
    if artist.Some? && !IsBlank(artist.value.downloadClientId) {
      if lidarrAnswer.None? {
        return None;
      }
      return Some(LidarrListing(lidarrAnswer.value, artist));
    }
    var albums, _ := SearchMusicBrainzAlbums(fetch, artist);
    if artist.Some? && !IsBlank(artist.value.artistId) {
      var run := Pages(fetch, artist.value, 0, None);
      forall k | 0 <= k < |albums| ensures !albums[k].available {
        assert albums[k] in multiset(run.albums);
      }
    }
    r := Some(albums);
  }

  /** A first page shorter than a full page is the only page fetched. */
  lemma ShortFirstPageOnly(fetch: nat -> PageAnswer, artist: MusicArtist)
    requires fetch(0).Page? && fetch(0).releaseGroups.Some?
    requires 0 < |fetch(0).releaseGroups.value| < PageSize
    ensures Pages(fetch, artist, 0, None).offsets == [0]
  {
  }

  /** A fetch that fails after a full first page keeps that page's albums. */
  lemma FailureKeepsCollected(fetch: nat -> PageAnswer, artist: MusicArtist)
    requires fetch(0).Page? && fetch(0).releaseGroups.Some? && |fetch(0).releaseGroups.value| == PageSize
    requires fetch(0).totalCount > PageSize && fetch(PageSize).FetchThrows?
    ensures Pages(fetch, artist, 0, None) == Paging(PageAlbums(fetch(0).releaseGroups.value, artist), [0, PageSize])
  {
    assert Pages(fetch, artist, PageSize, Some(fetch(0).totalCount)) == Paging([], [PageSize]);
    assert PageAlbums(fetch(0).releaseGroups.value, artist) + [] == PageAlbums(fetch(0).releaseGroups.value, artist);
  }

  /** After the first page, no offset at or beyond the first page's total is fetched. */
  lemma {:induction false} OffsetsBelowTotal(fetch: nat -> PageAnswer, artist: MusicArtist, offset: nat, total: int, k: nat)
    requires k < |Pages(fetch, artist, offset, Some(total)).offsets|
    ensures Pages(fetch, artist, offset, Some(total)).offsets[k] < total
    decreases total - offset
  {
    if k > 0 {
      OffsetsBelowTotal(fetch, artist, offset + PageSize, total, k - 1);
    }
  }

  // -------------------------------------------------------------- requests

  /** A Lidarr category as the request needs it. */
  datatype Category = Category(id: int, profileId: int, metadataProfileId: int, tags: seq<int>, rootFolder: string)

  /** The categories with that id, in order. */
  function Hits(categories: seq<Category>, categoryId: int): (r: seq<Category>)
    ensures forall c :: c in r ==> c in categories && c.id == categoryId
    ensures forall i :: 0 <= i < |categories| && categories[i].id == categoryId ==> categories[i] in r
  {
    if categories == [] then []
    else
      var rest := Hits(categories[1..], categoryId);
      assert forall i :: 1 <= i < |categories| ==> categories[i] == categories[1..][i - 1];
      (if categories[0].id == categoryId then [categories[0]] else []) + rest
  }

  /**
   * The category a request names. `Single` throws unless exactly one
   * category has the id; `SingleOrDefault` gives null for none, which the
   * payload then dereferences, and throws for several: either way only a
   * unique id yields a category.
   */
  function CategoryById(categories: seq<Category>, categoryId: int): (r: Option<Category>)
    ensures r.Some? ==> r.value in categories && r.value.id == categoryId
    ensures (forall i :: 0 <= i < |categories| ==> categories[i].id != categoryId) ==> r.None?
  {
    var hits := Hits(categories, categoryId);
    if |hits| == 1 then
      assert hits[0] in hits;
      Some(hits[0])
    else None
  }

  /** A category whose id no other category shares is the one found. */
  lemma {:induction false} UniqueCategoryFound(categories: seq<Category>, i: nat)
    requires i < |categories|
    requires forall j :: 0 <= j < |categories| && j != i ==> categories[j].id != categories[i].id
    ensures CategoryById(categories, categories[i].id) == Some(categories[i])
  {
    HitsOfUnique(categories, i);
  }

  lemma {:induction false} HitsOfUnique(categories: seq<Category>, i: nat)
    requires i < |categories|
    requires forall j :: 0 <= j < |categories| && j != i ==> categories[j].id != categories[i].id
    ensures Hits(categories, categories[i].id) == [categories[i]]
    decreases |categories|
  {
    var id := categories[i].id;
    if i == 0 {
      NoHits(categories[1..], id);
    } else {
      forall j | 0 <= j < |categories[1..]| && j != i - 1 ensures categories[1..][j].id != id {
        assert categories[1..][j] == categories[j + 1];
      }
      HitsOfUnique(categories[1..], i - 1);
    }
  }

  lemma {:induction false} NoHits(categories: seq<Category>, categoryId: int)
    requires forall j :: 0 <= j < |categories| ==> categories[j].id != categoryId
    ensures Hits(categories, categoryId) == []
    decreases |categories|
  {
    if categories != [] {
      NoHits(categories[1..], categoryId);
    }
  }

  /** Two categories sharing the requested id make the lookup fail. */
  lemma {:induction false} SharedCategoryIdFails(categories: seq<Category>, i: nat, j: nat)
    requires i < j < |categories| && categories[i].id == categories[j].id
    ensures CategoryById(categories, categories[i].id).None?
  {
    var hits := Hits(categories, categories[i].id);
    if |hits| == 1 {
      HitsCount(categories, categories[i].id, i, j);
    }
  }

  lemma {:induction false} HitsCount(categories: seq<Category>, categoryId: int, i: nat, j: nat)
    requires i < j < |categories| && categories[i].id == categoryId && categories[j].id == categoryId
    ensures |Hits(categories, categoryId)| >= 2
    decreases |categories|
  {
    if i == 0 {
      assert categories[1..][j - 1] == categories[j];
      assert categories[j] in Hits(categories[1..], categoryId);
    } else {
      assert categories[1..][i - 1] == categories[i] && categories[1..][j - 1] == categories[j];
      HitsCount(categories[1..], categoryId, i - 1, j - 1);
    }
  }

  /** The body of the artist creation POST. */
  datatype CreatePayload = CreatePayload(foreignArtistId: string, artistName: string, mbId: string,
                                         qualityProfileId: int, metadataProfileId: int, monitored: bool,
                                         monitorNewItems: string, tags: seq<int>, rootFolderPath: string,
                                         searchForMissingAlbums: bool)

  /**
   * `CreateMusicInLidarr`'s payload: the artist is monitored only when asked
   * for and new requests are monitored; new items are all or none as asked;
   * missing albums are searched only when asked for and new requests are
   * searched.
   */
  function Payload(found: MusicArtist, category: Category, monitorArtist: bool, searchMissingAlbums: bool,
                   monitorNewRequests: bool, searchNewRequests: bool): (r: CreatePayload)
    ensures r.monitored <==> monitorArtist && monitorNewRequests
    ensures r.monitorNewItems == (if monitorArtist then "all" else "none")
    ensures r.searchForMissingAlbums <==> searchMissingAlbums && searchNewRequests
    ensures r.foreignArtistId == found.artistId && r.mbId == found.artistId
    ensures r.qualityProfileId == category.profileId && r.metadataProfileId == category.metadataProfileId
    ensures r.tags == category.tags && r.rootFolderPath == category.rootFolder
  {
    CreatePayload(found.artistId, found.artistName, found.artistId, category.profileId, category.metadataProfileId,
                  monitorArtist && monitorNewRequests, if monitorArtist then "all" else "none", category.tags,
                  category.rootFolder, searchMissingAlbums && searchNewRequests)
  }

  /** `CreateMusicInLidarr`: the payload, or a failure when the category is not unique. */
  function CreateRequest(categories: seq<Category>, categoryId: int, found: MusicArtist, monitorArtist: bool,
                         searchMissingAlbums: bool, monitorNewRequests: bool, searchNewRequests: bool): (r: Option<CreatePayload>)
    ensures r.Some? <==> CategoryById(categories, categoryId).Some?
    ensures r.Some? ==> r.value.qualityProfileId == CategoryById(categories, categoryId).value.profileId
                        && (r.value.monitored <==> monitorArtist && monitorNewRequests)
                        && (r.value.searchForMissingAlbums <==> searchMissingAlbums && searchNewRequests)
  {
    var category := CategoryById(categories, categoryId);
    if category.None? then None
    else Some(Payload(found, category.value, monitorArtist, searchMissingAlbums, monitorNewRequests, searchNewRequests))
  }

  /** How `RequestMusicAsync` reaches Lidarr. */
  datatype Route = CreateArtist(monitorArtist: bool, searchMissingAlbums: bool) | UpdateArtist(monitorArtist: bool)

  /** An artist unknown to Lidarr (blank id) is created, searching as configured; a known one is updated. */
  function RequestRoute(artist: MusicArtist, searchNewRequests: bool): (r: Route)
    ensures r.CreateArtist? <==> IsBlank(artist.downloadClientId)
    ensures r.CreateArtist? ==> r.monitorArtist && r.searchMissingAlbums == searchNewRequests
    ensures r.UpdateArtist? ==> r.monitorArtist
  {
    if IsBlank(artist.downloadClientId) then CreateArtist(true, searchNewRequests) else UpdateArtist(true)
  }

  /** Lidarr's answer when `UpdateExistingMusic` fetches the artist. */
  datatype ArtistLookup = ArtistFound | ArtistNotFound | LookupFailed

  /** What `UpdateExistingMusic` does: fail, re-create the lost artist without a search, or re-tag and monitor it. */
  datatype Update = UpdateFails
                  | Recreate(monitorArtist: bool, searchMissingAlbums: bool)
                  | PutArtist(lidarrId: int, tags: seq<int>, monitored: bool, searchCommand: bool)

  function UpdateOf(downloadClientId: string, lookup: ArtistLookup, categories: seq<Category>, categoryId: int,
                    monitorArtist: bool, monitorNewRequests: bool, searchNewRequests: bool): (r: Update)
    ensures ParseInt32(downloadClientId).None? || lookup.LookupFailed? ==> r.UpdateFails?
    ensures r.Recreate? <==> ParseInt32(downloadClientId).Some? && lookup.ArtistNotFound?
    ensures r.Recreate? ==> !r.searchMissingAlbums && r.monitorArtist == monitorArtist
    ensures r.PutArtist? <==> ParseInt32(downloadClientId).Some? && lookup.ArtistFound?
                              && CategoryById(categories, categoryId).Some?
    ensures r.PutArtist? ==> r.lidarrId == ParseInt32(downloadClientId).value
                             && r.tags == CategoryById(categories, categoryId).value.tags
                             && (r.monitored <==> monitorArtist && monitorNewRequests)
                             && (r.searchCommand <==> monitorArtist && searchNewRequests)
  {
    var lidarrId := ParseInt32(downloadClientId);
    if lidarrId.None? || lookup.LookupFailed? then UpdateFails
    else if lookup.ArtistNotFound? then Recreate(monitorArtist, false)
    else
      var category := CategoryById(categories, categoryId);
      if category.None? then UpdateFails
      else PutArtist(lidarrId.value, category.value.tags, monitorArtist && monitorNewRequests, monitorArtist && searchNewRequests)
  }

  /** A requested artist Lidarr has lost is added again without a search, whatever the search setting. */
  lemma LostArtistNotSearched(artist: MusicArtist, categories: seq<Category>, categoryId: int, found: MusicArtist,
                              monitorNewRequests: bool, searchNewRequests: bool)
    requires RequestRoute(artist, searchNewRequests).UpdateArtist? && ParseInt32(artist.downloadClientId).Some?
    requires CategoryById(categories, categoryId).Some?
    ensures var u := UpdateOf(artist.downloadClientId, ArtistNotFound, categories, categoryId, true,
                              monitorNewRequests, searchNewRequests);
            u.Recreate? &&
            var p := CreateRequest(categories, categoryId, found, u.monitorArtist, u.searchMissingAlbums,
                                   monitorNewRequests, searchNewRequests);
            p.Some? && !p.value.searchForMissingAlbums && (p.value.monitored <==> monitorNewRequests)
  {
  }
}
