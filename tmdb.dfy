/**
 * The constant tables of the upstream catalogue service and the query
 * parameters of its two discover requests.
 */
module Tmdb {
  import opened Wrappers
  import opened Strings
  import opened Types

  const ImageBaseUrl: string := "https://image.tmdb.org/t/p"

  /** The six Korean subscription providers, `|`-separated (an OR for the service). */
  const KrProviderIds: string := "8|337|97|356|1796|2039"

  // ---------- upstream response types ----------

  /** One result of the movie discover endpoint. */
  datatype TmdbMovie = TmdbMovie(
    id: int,
    title: string,
    originalTitle: string,
    overview: string,
    posterPath: Option<string>,
    backdropPath: Option<string>,
    voteAverage: real,
    releaseDate: string,
    genreIds: seq<int>,
    popularity: real,
    originalLanguage: string,
    originCountry: Option<seq<string>>)

  /** One result of the TV discover endpoint. */
  datatype TmdbTv = TmdbTv(
    id: int,
    name: string,
    originalName: string,
    overview: string,
    posterPath: Option<string>,
    backdropPath: Option<string>,
    voteAverage: real,
    firstAirDate: string,
    genreIds: seq<int>,
    popularity: real,
    originalLanguage: string,
    originCountry: seq<string>)

  /** The shape shared by trending and search results: either kind, title fields optional. */
  datatype TrendingItem = TrendingItem(
    id: int,
    mediaType: MediaType,
    title: Option<string>,
    name: Option<string>,
    originalTitle: Option<string>,
    originalName: Option<string>,
    overview: string,
    posterPath: Option<string>,
    backdropPath: Option<string>,
    voteAverage: real,
    releaseDate: Option<string>,
    firstAirDate: Option<string>,
    genreIds: seq<int>,
    popularity: real,
    originalLanguage: string,
    originCountry: Option<seq<string>>)

  datatype ProviderEntry = ProviderEntry(providerId: int, providerName: string)

  /** The availability classes of one region. */
  datatype RegionProviders = RegionProviders(
    flatrate: Option<seq<ProviderEntry>>,
    buy: Option<seq<ProviderEntry>>,
    rent: Option<seq<ProviderEntry>>)

  /** A watch-providers response: availability per region code. */
  datatype WatchProviders = WatchProviders(results: Option<map<string, RegionProviders>>)

  // ---------- lookup tables ----------

  /** Upstream watch-provider id to platform key. */
  const ProviderIdMap: map<int, string> :=
    map[8 := "netflix", 337 := "disney", 97 := "watcha", 356 := "wavve", 1796 := "tving", 2039 := "coupang"]

  /** Upstream genre id (movie and TV vocabularies together) to genre key. */
  const GenreIdMap: map<int, string> :=
    map[28 := "action", 12 := "action", 16 := "animation", 35 := "comedy", 80 := "crime",
        99 := "documentary", 18 := "drama", 10751 := "drama", 14 := "fantasy", 36 := "drama",
        27 := "horror", 10402 := "drama", 9648 := "mystery", 10749 := "romance", 878 := "sf",
        10770 := "drama", 53 := "thriller", 10752 := "action", 37 := "action",
        10759 := "action", 10762 := "animation", 10763 := "documentary", 10764 := "drama",
        10765 := "sf", 10766 := "drama", 10767 := "drama", 10768 := "thriller"]

  /** The provider table has six keys, each naming a different platform, and covers every platform. */
  lemma ProviderIdMapTable()
    ensures ProviderIdMap.Keys == {8, 337, 97, 356, 1796, 2039}
    ensures forall id :: id in ProviderIdMap ==> ParseOtt(ProviderIdMap[id]).Some?
    ensures forall i, j :: i in ProviderIdMap && j in ProviderIdMap && ProviderIdMap[i] == ProviderIdMap[j] ==> i == j
    ensures forall p :: OttKey(p) in ProviderIdMap.Values
  {
    ProviderIdMapInjective();
    ProviderIdMapCovers();
  }

  lemma ProviderIdMapInjective()
    ensures forall i, j :: i in ProviderIdMap && j in ProviderIdMap && ProviderIdMap[i] == ProviderIdMap[j] ==> i == j
  {
  }

  lemma ProviderIdMapCovers()
    ensures forall p :: OttKey(p) in ProviderIdMap.Values
  {
    forall p ensures OttKey(p) in ProviderIdMap.Values {
      match p
      case Netflix => assert ProviderIdMap[8] == OttKey(p);
      case Disney => assert ProviderIdMap[337] == OttKey(p);
      case Tving => assert ProviderIdMap[1796] == OttKey(p);
      case Wavve => assert ProviderIdMap[356] == OttKey(p);
      case Coupang => assert ProviderIdMap[2039] == OttKey(p);
      case Watcha => assert ProviderIdMap[97] == OttKey(p);
    }
  }

  lemma ProviderIdDecimals()
    ensures IntToString(8) == "8" && IntToString(337) == "337" && IntToString(97) == "97"
    ensures IntToString(356) == "356" && IntToString(1796) == "1796" && IntToString(2039) == "2039"
  {
    FourDigitDecimals();
  }

  /** Proof step of ProviderIdDecimals: the two four-digit ids, kept apart to keep that proof small. */
  lemma FourDigitDecimals()
    ensures IntToString(1796) == "1796" && IntToString(2039) == "2039"
  {
  }

  /** The decimal ids that the combined provider parameter joins. */
  const KrProviderIdParts: seq<string> := ["8", "337", "97", "356", "1796", "2039"]

  /** The combined provider parameter is the `|`-join of six decimal ids. */
  lemma KrProviderIdsJoin()
    ensures KrProviderIds == Join("|", KrProviderIdParts)
  {
    var p := KrProviderIdParts;
    JoinedSuffixes();
    JoinStep(p[4..], "1796", "2039");
    JoinStep(p[3..], "356", "1796|2039");
    JoinStep(p[2..], "97", "356|1796|2039");
    JoinStep(p[1..], "337", "97|356|1796|2039");
    JoinStep(p, "8", "337|97|356|1796|2039");
  }

  /**
   * Proof step of KrProviderIdsJoin: the provider parameter, taken apart at
   * each separator; the literal concatenations are checked here, in small
   * pieces, rather than inside that proof.
   */
  lemma JoinedSuffixes()
    ensures "1796" + "|" + "2039" == "1796|2039"
    ensures "356" + "|" + "1796|2039" == "356|1796|2039"
    ensures "97" + "|" + "356|1796|2039" == "97|356|1796|2039"
    ensures "337" + "|" + "97|356|1796|2039" == "337|97|356|1796|2039"
    ensures "8" + "|" + "337|97|356|1796|2039" == KrProviderIds
  {
    LongJoinedSuffixes();
  }

  /** Proof step of JoinedSuffixes: the two longest suffixes. */
  lemma LongJoinedSuffixes()
    ensures "337" + "|" + "97|356|1796|2039" == "337|97|356|1796|2039"
    ensures "8" + "|" + "337|97|356|1796|2039" == KrProviderIds
  {
  }

  /** One step of the join: the head, the separator, then the joined rest. */
  lemma JoinStep(parts: seq<string>, head: string, rest: string)
    requires |parts| >= 2 && parts[0] == head && Join("|", parts[1..]) == rest
    ensures Join("|", parts) == head + "|" + rest
  {
  }

  /** Those ids are the decimals of exactly the keys of the provider table. */
  lemma KrProviderIdsAreTableKeys()
    ensures forall id :: id in ProviderIdMap <==> IntToString(id) in KrProviderIdParts
  {
    ProviderIdDecimals();
    forall id ensures id in ProviderIdMap <==> IntToString(id) in KrProviderIdParts {
      var d := IntToString(id);
      if d == "8" { IntToStringInjective(id, 8); }
      else if d == "337" { IntToStringInjective(id, 337); }
      else if d == "97" { IntToStringInjective(id, 97); }
      else if d == "356" { IntToStringInjective(id, 356); }
      else if d == "1796" { IntToStringInjective(id, 1796); }
      else if d == "2039" { IntToStringInjective(id, 2039); }
    }
  }

  /** The upstream genre ids that the table sends to g. */
  ghost function GenreIdsFor(g: Genre): set<int> {
    set id | id in GenreIdMap && GenreIdMap[id] == GenreKey(g)
  }

  /** The genre keys the table uses. */
  const GenreTableValues: set<string> :=
    {"action", "animation", "comedy", "crime", "documentary", "drama",
     "fantasy", "horror", "mystery", "romance", "sf", "thriller"}

  /** Every value of the genre table is a member of the Genre enumeration. */
  lemma GenreIdMapValuesAreGenres()
    ensures forall id :: id in GenreIdMap ==> ParseGenre(GenreIdMap[id]).Some?
  {
    assert forall id :: id in GenreIdMap ==> GenreIdMap[id] in GenreTableValues;
    forall v | v in GenreTableValues ensures ParseGenre(v).Some? {
    }
  }

  /** Every genre is reached from some upstream id. */
  lemma GenreIdMapCoversGenres()
    ensures forall g :: GenreKey(g) in GenreIdMap.Values
  {
    forall g ensures GenreKey(g) in GenreIdMap.Values {
      match g
      case Romance => assert GenreIdMap[10749] == GenreKey(g);
      case Thriller => assert GenreIdMap[10768] == GenreKey(g);
      case Horror => assert GenreIdMap[27] == GenreKey(g);
      case Comedy => assert GenreIdMap[35] == GenreKey(g);
      case Action => assert GenreIdMap[10759] == GenreKey(g);
      case Sf => assert GenreIdMap[10765] == GenreKey(g);
      case Drama => assert GenreIdMap[10767] == GenreKey(g);
      case Animation => assert GenreIdMap[10762] == GenreKey(g);
      case Documentary => assert GenreIdMap[10763] == GenreKey(g);
      case Fantasy => assert GenreIdMap[14] == GenreKey(g);
      case Crime => assert GenreIdMap[80] == GenreKey(g);
      case Mystery => assert GenreIdMap[9648] == GenreKey(g);
    }
  }

  /** The table is many-to-one: five ids collapse onto action. */
  lemma ActionGenreIds()
    ensures GenreIdsFor(Action) == {28, 12, 10752, 37, 10759}
  {
  }

  /** Romance, horror and comedy are each reached from exactly one id. */
  lemma SingleSourceGenres()
    ensures GenreIdsFor(Romance) == {10749}
    ensures GenreIdsFor(Horror) == {27}
    ensures GenreIdsFor(Comedy) == {35}
  {
  }

  /** Crime, mystery and fantasy are each reached from exactly one id. */
  lemma MoreSingleSourceGenres()
    ensures GenreIdsFor(Crime) == {80}
    ensures GenreIdsFor(Mystery) == {9648}
    ensures GenreIdsFor(Fantasy) == {14}
  {
  }

  // ---------- discover requests ----------

  /** A request to the service: a path and its query parameters. */
  datatype Request = Request(path: string, params: map<string, string>)

  /**
   * The request `discoverMovies` / `discoverTV` sends (before the client adds
   * its key and language): `providerId || KR_PROVIDER_IDS` picks the provider.
   */
  function Discover(kind: MediaType, page: int, providerId: Option<string>): (r: Request)
    ensures r.path == "/discover/" + MediaKey(kind)
    ensures r.params.Keys == {"page", "watch_region", "with_watch_providers", "with_watch_monetization_types", "sort_by"}
    ensures r.params["page"] == IntToString(page)
    ensures r.params["watch_region"] == "KR"
    ensures r.params["with_watch_monetization_types"] == "flatrate"
    ensures r.params["sort_by"] == "popularity.desc"
    ensures providerId.Some? && providerId.value != "" ==> r.params["with_watch_providers"] == providerId.value
    ensures providerId.None? || providerId.value == "" ==> r.params["with_watch_providers"] == KrProviderIds
  {
    var provider := if providerId.Some? && providerId.value != "" then providerId.value else KrProviderIds;
    Request("/discover/" + MediaKey(kind),
            map["page" := IntToString(page),
                "watch_region" := "KR",
                "with_watch_providers" := provider,
                "with_watch_monetization_types" := "flatrate",
                "sort_by" := "popularity.desc"])
  }
}
