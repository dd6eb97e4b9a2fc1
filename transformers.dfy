/**
 * The record transformer and the taxonomy mapper: image locators, country
 * inference, genre and provider code mapping, and the construction of one
 * `Content` from one upstream record.
 */
module Transformers {
  import opened Wrappers
  import opened Strings
  import opened Seqs
  import opened Types
  import opened Tmdb

  // ---------- image locators ----------

  const DefaultPosterSize: string := "w500"
  const DefaultBackdropSize: string := "w1280"

  /** `posterUrl(path, size)`: empty for a missing path, else base, size and path. */
  function PosterUrl(path: Option<string>, size: string): (r: string)
    ensures r == "" <==> path.None? || path.value == ""
    ensures r != "" ==> r == ImageBaseUrl + "/" + size + path.value
  {
    if path.None? || path.value == "" then "" else ImageBaseUrl + "/" + size + path.value
  }

  /** `backdropUrl(path, size)`: the same rule with the backdrop's default size. */
  function BackdropUrl(path: Option<string>, size: string): (r: string)
    ensures r == "" <==> path.None? || path.value == ""
    ensures r != "" ==> |r| == |ImageBaseUrl| + 1 + |size| + |path.value|
    ensures r != "" ==> r[..|ImageBaseUrl| + 1 + |size|] == ImageBaseUrl + "/" + size
    ensures r != "" ==> r[|ImageBaseUrl| + 1 + |size|..] == path.value
  {
    if path.None? || path.value == "" then "" else ImageBaseUrl + "/" + size + path.value
  }

  // ---------- rounding ----------

  /** `Math.round(x)`: the nearest integer, halves rounded up. */
  function RoundHalfUp(x: real): (r: int)
    ensures r as real - 0.5 <= x < r as real + 0.5
  {
    (x + 0.5).Floor
  }

  // ---------- country ----------

  /** Origin-country codes the mapper knows. */
  const RegionCountries: map<string, Country> :=
    map["KR" := Kr, "US" := Us, "JP" := Jp, "GB" := Gb, "FR" := Fr, "ES" := Es, "DE" := De]

  /** Original-language codes the mapper falls back on. */
  const LanguageCountries: map<string, Country> :=
    map["ko" := Kr, "en" := Us, "ja" := Jp, "fr" := Fr, "es" := Es, "de" := De]

  /** `originCountry?.[0] || ""`. */
  function FirstCountryCode(originCountry: Option<seq<string>>): string {
    if originCountry.Some? && |originCountry.value| > 0 then originCountry.value[0] else ""
  }

  /** The first origin country if known, else the original language if known, else the US. */
  function MapCountry(originCountry: Option<seq<string>>, originalLanguage: string): (r: Country)
    ensures FirstCountryCode(originCountry) in RegionCountries ==>
              r == RegionCountries[FirstCountryCode(originCountry)]
    ensures FirstCountryCode(originCountry) !in RegionCountries && originalLanguage in LanguageCountries ==>
              r == LanguageCountries[originalLanguage]
    ensures FirstCountryCode(originCountry) !in RegionCountries && originalLanguage !in LanguageCountries ==>
              r == Us
  {
    var code := FirstCountryCode(originCountry);
    if code in RegionCountries then RegionCountries[code]
    else if originalLanguage in LanguageCountries then LanguageCountries[originalLanguage]
    else Us
  }

  /**
   * The region table is the inverse of upper-casing a country's key: it
   * reaches every country, and each code names the country whose key is the
   * code in lower case.
   */
  lemma RegionCountriesAreCountryKeys()
    ensures forall code :: code in RegionCountries ==> Lower(code) == CountryKey(RegionCountries[code])
    ensures forall c :: c in RegionCountries.Values
  {
    assert Lower("KR") == "kr" && Lower("US") == "us" && Lower("JP") == "jp" && Lower("GB") == "gb";
    assert Lower("FR") == "fr" && Lower("ES") == "es" && Lower("DE") == "de";
    forall c ensures c in RegionCountries.Values {
      match c
      case Kr => assert RegionCountries["KR"] == c;
      case Us => assert RegionCountries["US"] == c;
      case Jp => assert RegionCountries["JP"] == c;
      case Gb => assert RegionCountries["GB"] == c;
      case Fr => assert RegionCountries["FR"] == c;
      case Es => assert RegionCountries["ES"] == c;
      case De => assert RegionCountries["DE"] == c;
    }
  }

  /** A known first origin country decides alone: the language is then ignored. */
  lemma MapCountryIgnoresLanguage(originCountry: Option<seq<string>>, lang1: string, lang2: string)
    requires FirstCountryCode(originCountry) in RegionCountries
    ensures MapCountry(originCountry, lang1) == MapCountry(originCountry, lang2)
  {
  }

  /** Without a known country or language the mapper still answers: the US. */
  lemma MapCountryDefault(originCountry: Option<seq<string>>, lang: string)
    requires originCountry.None? || originCountry.value == [] || originCountry.value[0] == ""
    requires lang !in LanguageCountries
    ensures MapCountry(originCountry, lang) == Us
  {
  }

  // ---------- genres ----------

  /**
   * The genre of each id the table knows, in input order, unknown ids dropped.
   * The source adds any truthy table value (`if (mapped)`); decoding it as a
   * Genre succeeds for every table value (Tmdb.GenreIdMapValuesAreGenres), so
   * the guard below lets through exactly the ids the table holds.
   */
  function KnownGenres(genreIds: seq<int>): seq<Genre> {
    if genreIds == [] then []
    else
      var id := genreIds[|genreIds| - 1];
      if id in GenreIdMap && ParseGenre(GenreIdMap[id]).Some?
      then KnownGenres(genreIds[..|genreIds| - 1]) + [ParseGenre(GenreIdMap[id]).value]
      else KnownGenres(genreIds[..|genreIds| - 1])
  }

  lemma KnownGenresSnoc(genreIds: seq<int>, id: int)
    ensures id in GenreIdMap && ParseGenre(GenreIdMap[id]).Some? ==>
              KnownGenres(genreIds + [id]) == KnownGenres(genreIds) + [ParseGenre(GenreIdMap[id]).value]
    ensures !(id in GenreIdMap && ParseGenre(GenreIdMap[id]).Some?) ==>
              KnownGenres(genreIds + [id]) == KnownGenres(genreIds)
  {
    assert (genreIds + [id])[..|genreIds|] == genreIds;
  }

  /** `mapGenres`: the known genres, each once, in order of first occurrence. */
  function GenresOf(genreIds: seq<int>): seq<Genre> {
    Distinct(KnownGenres(genreIds))
  }

  lemma {:induction false} KnownGenresSpec(genreIds: seq<int>)
    ensures forall g :: g in KnownGenres(genreIds) <==>
              exists k :: 0 <= k < |genreIds| && genreIds[k] in GenreIdMap && GenreIdMap[genreIds[k]] == GenreKey(g)
  {
    if genreIds != [] {
      var init := genreIds[..|genreIds| - 1];
      KnownGenresSpec(init);
      forall g ensures g in KnownGenres(genreIds) <==>
                 exists k :: 0 <= k < |genreIds| && genreIds[k] in GenreIdMap && GenreIdMap[genreIds[k]] == GenreKey(g)
      {
        if exists k :: 0 <= k < |genreIds| && genreIds[k] in GenreIdMap && GenreIdMap[genreIds[k]] == GenreKey(g) {
          var k :| 0 <= k < |genreIds| && genreIds[k] in GenreIdMap && GenreIdMap[genreIds[k]] == GenreKey(g);
          if k < |init| {
            assert init[k] == genreIds[k];
          } else {
            ParseGenreKey(g);
          }
        }
        if g in KnownGenres(genreIds) && g !in KnownGenres(init) {
          assert GenreIdMap[genreIds[|genreIds| - 1]] == GenreKey(g);
        }
        if g in KnownGenres(init) {
          var k :| 0 <= k < |init| && init[k] in GenreIdMap && GenreIdMap[init[k]] == GenreKey(g);
          assert genreIds[k] == init[k];
        }
      }
    }
  }

  /**
   * The mapped genres hold no duplicates, and a genre is among them exactly
   * when the table sends some input id to it.
   */
  lemma GenresOfSpec(genreIds: seq<int>)
    ensures NoDup(GenresOf(genreIds))
    ensures forall g :: g in GenresOf(genreIds) <==>
              exists k :: 0 <= k < |genreIds| && genreIds[k] in GenreIdMap && GenreIdMap[genreIds[k]] == GenreKey(g)
  {
    KnownGenresSpec(genreIds);
    DistinctSpec(KnownGenres(genreIds));
  }

  /** `mapGenres` as the source runs it: fill a set while walking the ids. */
  method MapGenres(genreIds: seq<int>) returns (genres: seq<Genre>)
    ensures genres == GenresOf(genreIds)
  {
    genres := [];
    var i := 0;
    while i < |genreIds|
      invariant 0 <= i <= |genreIds|
      invariant genres == GenresOf(genreIds[..i])
    {
      var id := genreIds[i];
      ghost var known := KnownGenres(genreIds[..i]);
      assert genreIds[..i + 1] == genreIds[..i] + [id];
      KnownGenresSnoc(genreIds[..i], id);
      DistinctSpec(known);
      if id in GenreIdMap && ParseGenre(GenreIdMap[id]).Some? {
        var mapped := ParseGenre(GenreIdMap[id]).value;
        assert KnownGenres(genreIds[..i + 1]) == known + [mapped];
        if mapped !in genres {
          DistinctAppendNew(known, mapped);
          genres := genres + [mapped];
        } else {
          DistinctAppendSeen(known, mapped);
        }
      } else {
        assert KnownGenres(genreIds[..i + 1]) == known;
      }
      i := i + 1;
    }
    assert genreIds[..i] == genreIds;
  }

  // ---------- providers ----------

  /** `providers.results?.KR?.flatrate || []`. */
  function KrFlatrate(providers: WatchProviders): seq<ProviderEntry> {
    if providers.results.Some? && "KR" in providers.results.value
       && providers.results.value["KR"].flatrate.Some?
    then providers.results.value["KR"].flatrate.value
    else []
  }

  /**
   * The platform of each entry the table knows, in order, unknown ids dropped.
   * As for genres, the decoding guard stands for `if (mapped)`: every value
   * of the provider table decodes (Tmdb.ProviderIdMapTable).
   */
  function KnownPlatforms(entries: seq<ProviderEntry>): seq<OttPlatform> {
    if entries == [] then []
    else
      var id := entries[|entries| - 1].providerId;
      if id in ProviderIdMap && ParseOtt(ProviderIdMap[id]).Some?
      then KnownPlatforms(entries[..|entries| - 1]) + [ParseOtt(ProviderIdMap[id]).value]
      else KnownPlatforms(entries[..|entries| - 1])
  }

  lemma KnownPlatformsSnoc(entries: seq<ProviderEntry>, e: ProviderEntry)
    ensures e.providerId in ProviderIdMap && ParseOtt(ProviderIdMap[e.providerId]).Some? ==>
              KnownPlatforms(entries + [e]) == KnownPlatforms(entries) + [ParseOtt(ProviderIdMap[e.providerId]).value]
    ensures !(e.providerId in ProviderIdMap && ParseOtt(ProviderIdMap[e.providerId]).Some?) ==>
              KnownPlatforms(entries + [e]) == KnownPlatforms(entries)
  {
    assert (entries + [e])[..|entries|] == entries;
  }

  /** `mapProviders`: the known Korean subscription platforms, each once. */
  function ProvidersOf(providers: WatchProviders): seq<OttPlatform> {
    Distinct(KnownPlatforms(KrFlatrate(providers)))
  }

  lemma {:induction false} KnownPlatformsSpec(entries: seq<ProviderEntry>)
    ensures forall p :: p in KnownPlatforms(entries) <==>
              exists k :: 0 <= k < |entries| && entries[k].providerId in ProviderIdMap
                          && ProviderIdMap[entries[k].providerId] == OttKey(p)
  {
    if entries != [] {
      var init := entries[..|entries| - 1];
      KnownPlatformsSpec(init);
      forall p ensures p in KnownPlatforms(entries) <==>
                 exists k :: 0 <= k < |entries| && entries[k].providerId in ProviderIdMap
                             && ProviderIdMap[entries[k].providerId] == OttKey(p)
      {
        if exists k :: 0 <= k < |entries| && entries[k].providerId in ProviderIdMap
                       && ProviderIdMap[entries[k].providerId] == OttKey(p) {
          var k :| 0 <= k < |entries| && entries[k].providerId in ProviderIdMap
                   && ProviderIdMap[entries[k].providerId] == OttKey(p);
          if k < |init| {
            assert init[k] == entries[k];
          } else {
            ParseOttKey(p);
          }
        }
        if p in KnownPlatforms(entries) && p !in KnownPlatforms(init) {
          assert ProviderIdMap[entries[|entries| - 1].providerId] == OttKey(p);
        }
        if p in KnownPlatforms(init) {
          var k :| 0 <= k < |init| && init[k].providerId in ProviderIdMap
                   && ProviderIdMap[init[k].providerId] == OttKey(p);
          assert entries[k] == init[k];
        }
      }
    }
  }

  /**
   * The mapped platforms hold no duplicates; a platform is among them exactly
   * when some Korean flat-rate entry has a provider id the table sends to it.
   * Purchase and rental entries, and other regions, play no part.
   */
  lemma ProvidersOfSpec(providers: WatchProviders)
    ensures NoDup(ProvidersOf(providers))
    ensures forall p :: p in ProvidersOf(providers) <==>
              exists e :: e in KrFlatrate(providers) && e.providerId in ProviderIdMap
                          && ProviderIdMap[e.providerId] == OttKey(p)
    ensures providers.results.None? || "KR" !in providers.results.value ==> ProvidersOf(providers) == []
  {
    var entries := KrFlatrate(providers);
    KnownPlatformsSpec(entries);
    DistinctSpec(KnownPlatforms(entries));
    forall p ensures p in ProvidersOf(providers) <==>
                exists e :: e in entries && e.providerId in ProviderIdMap && ProviderIdMap[e.providerId] == OttKey(p)
    {
      if exists e :: e in entries && e.providerId in ProviderIdMap && ProviderIdMap[e.providerId] == OttKey(p) {
        var e :| e in entries && e.providerId in ProviderIdMap && ProviderIdMap[e.providerId] == OttKey(p);
        var k :| 0 <= k < |entries| && entries[k] == e;
      }
    }
  }

  /** `mapProviders` as the source runs it: fill a set while walking the entries. */
  method MapProviders(providers: WatchProviders) returns (platforms: seq<OttPlatform>)
    ensures platforms == ProvidersOf(providers)
  {
    var entries := KrFlatrate(providers);
    platforms := [];
    var i := 0;
    while i < |entries|
      invariant 0 <= i <= |entries|
      invariant platforms == Distinct(KnownPlatforms(entries[..i]))
    {
      var id := entries[i].providerId;
      ghost var known := KnownPlatforms(entries[..i]);
      assert entries[..i + 1] == entries[..i] + [entries[i]];
      KnownPlatformsSnoc(entries[..i], entries[i]);
      DistinctSpec(known);
      if id in ProviderIdMap && ParseOtt(ProviderIdMap[id]).Some? {
        var mapped := ParseOtt(ProviderIdMap[id]).value;
        assert KnownPlatforms(entries[..i + 1]) == known + [mapped];
        if mapped !in platforms {
          DistinctAppendNew(known, mapped);
          platforms := platforms + [mapped];
        } else {
          DistinctAppendSeen(known, mapped);
        }
      } else {
        assert KnownPlatforms(entries[..i + 1]) == known;
      }
      i := i + 1;
    }
    assert entries[..i] == entries;
  }

  // ---------- identifiers ----------

  /** `${mediaType}-${id}`. */
  function TypedId(m: MediaType, id: int): string {
    MediaKey(m) + "-" + IntToString(id)
  }

  /** `tmdb-${mediaType}-${id}`, the id of a transformed record. */
  function ContentId(m: MediaType, id: int): string {
    "tmdb-" + TypedId(m, id)
  }

  /** Reads a typed id back. */
  function ParseTypedId(s: string): Option<(MediaType, int)> {
    var kind := IdKind(s);
    if kind.None? then None
    else Some((kind.value, ParseInt(s[|MediaKey(kind.value)| + 1..])))
  }

  /** The kind a typed id starts with, `movie-` or `tv-`. */
  function IdKind(s: string): (r: Option<MediaType>)
    ensures r.Some? ==> |s| > |MediaKey(r.value)|
  {
    if |s| >= 6 && s[..6] == "movie-" then Some(Movie)
    else if |s| >= 3 && s[..3] == "tv-" then Some(Tv)
    else None
  }

  /** Reads a record id back. */
  function ParseContentId(s: string): Option<(MediaType, int)> {
    if |s| >= 5 && s[..5] == "tmdb-" then ParseTypedId(s[5..]) else None
  }

  lemma TypedIdRoundTrip(m: MediaType, id: int)
    ensures ParseTypedId(TypedId(m, id)) == Some((m, id))
  {
    var d := IntToString(id);
    IdKindOf(m, d);
    PrefixSplit(MediaKey(m) + "-", d);
    ParseIntToString(id);
  }

  /** A typed id starts with the name of its kind. */
  lemma IdKindOf(m: MediaType, d: string)
    ensures IdKind(MediaKey(m) + "-" + d) == Some(m)
  {
    var s := MediaKey(m) + "-" + d;
    if m == Movie {
      assert s[..6] == "movie-";
    } else {
      assert s[..3] == "tv-";
      assert |s| >= 6 ==> s[..6][0] == 't';
    }
  }

  /** A concatenation splits back at the length of its first part. */
  lemma PrefixSplit(p: string, t: string)
    ensures |p + t| >= |p| && (p + t)[..|p|] == p && (p + t)[|p|..] == t
  {
  }

  /** The record id determines the kind and the upstream id: distinct titles get distinct ids. */
  lemma ContentIdRoundTrip(m: MediaType, id: int)
    ensures ParseContentId(ContentId(m, id)) == Some((m, id))
  {
    TypedIdRoundTrip(m, id);
    assert ContentId(m, id)[5..] == TypedId(m, id);
  }

  lemma TypedIdInjective(m1: MediaType, id1: int, m2: MediaType, id2: int)
    requires TypedId(m1, id1) == TypedId(m2, id2)
    ensures m1 == m2 && id1 == id2
  {
    TypedIdRoundTrip(m1, id1);
    TypedIdRoundTrip(m2, id2);
  }

  // ---------- records ----------

  /** The placeholder description for an empty overview. */
  const NoDescription: string := "설명 없음"

  /** The release date string the transformer reads for the record's kind. */
  function ChosenDate(item: TrendingItem): string {
    if item.mediaType == Movie then item.releaseDate.GetOr("") else item.firstAirDate.GetOr("")
  }

  /**
   * `transformTrendingItem`: one record from one upstream item and its
   * resolved platforms. `year` stands for `new Date(s).getFullYear()`.
   */
  function TransformTrendingItem(item: TrendingItem, providers: seq<OttPlatform>, year: string -> int): Content
  {
    var isMovie := item.mediaType == Movie;
    var title := if isMovie then item.title.GetOr("") else item.name.GetOr("");
    var originalTitle := if isMovie then item.originalTitle.GetOr("") else item.originalName.GetOr("");
    var releaseDate := ChosenDate(item);
    Content(
      id := ContentId(item.mediaType, item.id),
      tmdbId := Some(item.id),
      mediaType := Some(item.mediaType),
      title := title,
      originalTitle := Some(originalTitle),
      posterUrl := PosterUrl(item.posterPath, DefaultPosterSize),
      backdropUrl := Some(BackdropUrl(item.backdropPath, DefaultBackdropSize)),
      description := if item.overview == "" then NoDescription else item.overview,
      rating := RoundHalfUp(item.voteAverage * 10.0),
      releaseYear := if releaseDate == "" then 0 else year(releaseDate),
      ottPlatforms := providers,
      genres := GenresOf(item.genreIds),
      country := MapCountry(item.originCountry, item.originalLanguage),
      contentType := if isMovie then MovieType else DramaType,
      director := None,
      cast := None,
      runtime := None,
      episodes := None,
      popularity := RoundHalfUp(item.popularity))
  }

  /**
   * The record's id reads back as the item's kind and id; its kind, texts,
   * year, rounded scores, genres and country follow the item field by field,
   * with the fallbacks for missing values.
   */
  lemma TransformSpec(item: TrendingItem, providers: seq<OttPlatform>, year: string -> int)
    ensures var r := TransformTrendingItem(item, providers, year);
            && ParseContentId(r.id) == Some((item.mediaType, item.id))
            && r.tmdbId == Some(item.id) && r.mediaType == Some(item.mediaType)
            && r.ottPlatforms == providers
    ensures var r := TransformTrendingItem(item, providers, year);
            && (r.contentType == MovieType <==> item.mediaType == Movie)
            && (r.contentType == DramaType <==> item.mediaType == Tv)
    ensures var r := TransformTrendingItem(item, providers, year);
            && (item.mediaType == Movie ==>
                  r.title == item.title.GetOr("") && r.originalTitle == Some(item.originalTitle.GetOr("")))
            && (item.mediaType == Tv ==>
                  r.title == item.name.GetOr("") && r.originalTitle == Some(item.originalName.GetOr("")))
    ensures var r := TransformTrendingItem(item, providers, year);
            && (item.overview == "" ==> r.description == NoDescription)
            && (item.overview != "" ==> r.description == item.overview)
    ensures var r := TransformTrendingItem(item, providers, year);
            && (ChosenDate(item) == "" ==> r.releaseYear == 0)
            && (ChosenDate(item) != "" ==> r.releaseYear == year(ChosenDate(item)))
    ensures var r := TransformTrendingItem(item, providers, year);
            && r.rating as real - 0.5 <= item.voteAverage * 10.0 < r.rating as real + 0.5
            && r.popularity as real - 0.5 <= item.popularity < r.popularity as real + 0.5
    ensures var r := TransformTrendingItem(item, providers, year);
            && r.genres == GenresOf(item.genreIds)
            && r.country == MapCountry(item.originCountry, item.originalLanguage)
    ensures var r := TransformTrendingItem(item, providers, year);
            && r.posterUrl == PosterUrl(item.posterPath, DefaultPosterSize)
            && r.backdropUrl == Some(BackdropUrl(item.backdropPath, DefaultBackdropSize))
            && r.director.None? && r.cast.None? && r.runtime.None? && r.episodes.None?
  {
    ContentIdRoundTrip(item.mediaType, item.id);
  }

  /** The trending-item view of a discover movie (`{...movie, media_type: "movie"}`). */
  function MovieAsItem(movie: TmdbMovie): TrendingItem {
    TrendingItem(movie.id, Movie, Some(movie.title), None, Some(movie.originalTitle), None,
                 movie.overview, movie.posterPath, movie.backdropPath, movie.voteAverage,
                 Some(movie.releaseDate), None, movie.genreIds, movie.popularity,
                 movie.originalLanguage, movie.originCountry)
  }

  /** The trending-item view of a discover TV show (`{...tv, media_type: "tv"}`). */
  function TvAsItem(tv: TmdbTv): TrendingItem {
    TrendingItem(tv.id, Tv, None, Some(tv.name), None, Some(tv.originalName),
                 tv.overview, tv.posterPath, tv.backdropPath, tv.voteAverage,
                 None, Some(tv.firstAirDate), tv.genreIds, tv.popularity,
                 tv.originalLanguage, Some(tv.originCountry))
  }

  /** `transformMovie`: a movie record titled by `title`, dated by `release_date`. */
  function TransformMovie(movie: TmdbMovie, providers: seq<OttPlatform>, year: string -> int): Content
  {
    TransformTrendingItem(MovieAsItem(movie), providers, year)
  }

  /** A discover movie becomes a movie record titled and dated by its own fields. */
  lemma TransformMovieSpec(movie: TmdbMovie, providers: seq<OttPlatform>, year: string -> int)
    ensures var r := TransformMovie(movie, providers, year);
            && ParseContentId(r.id) == Some((Movie, movie.id))
            && r.mediaType == Some(Movie) && r.contentType == MovieType
            && r.ottPlatforms == providers
    ensures var r := TransformMovie(movie, providers, year);
            && r.title == movie.title && r.originalTitle == Some(movie.originalTitle)
            && r.releaseYear == (if movie.releaseDate == "" then 0 else year(movie.releaseDate))
            && r.country == MapCountry(movie.originCountry, movie.originalLanguage)
  {
    TransformSpec(MovieAsItem(movie), providers, year);
  }

  /** `transformTV`: a drama record titled by `name`, dated by `first_air_date`. */
  function TransformTv(tv: TmdbTv, providers: seq<OttPlatform>, year: string -> int): Content
  {
    TransformTrendingItem(TvAsItem(tv), providers, year)
  }

  /** A discover TV show becomes a drama record titled and dated by its own fields. */
  lemma TransformTvSpec(tv: TmdbTv, providers: seq<OttPlatform>, year: string -> int)
    ensures var r := TransformTv(tv, providers, year);
            && ParseContentId(r.id) == Some((Tv, tv.id))
            && r.mediaType == Some(Tv) && r.contentType == DramaType
            && r.ottPlatforms == providers
    ensures var r := TransformTv(tv, providers, year);
            && r.title == tv.name && r.originalTitle == Some(tv.originalName)
            && r.releaseYear == (if tv.firstAirDate == "" then 0 else year(tv.firstAirDate))
            && r.country == MapCountry(Some(tv.originCountry), tv.originalLanguage)
  {
    TransformSpec(TvAsItem(tv), providers, year);
  }
}
