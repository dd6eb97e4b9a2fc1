/**
 * The domain vocabulary of the catalogue: the platforms, genres, countries,
 * content types and sort modes, their display tables, the `Content` record
 * and the filter state.
 */
module Types {
  import opened Wrappers
  import opened Seqs

  // ---------- OTT platforms ----------

  datatype OttPlatform = Netflix | Disney | Tving | Wavve | Coupang | Watcha

  const AllOttPlatforms: seq<OttPlatform> := [Netflix, Disney, Tving, Wavve, Coupang, Watcha]

  /** The string literal that stands for the platform in the source. */
  function OttKey(p: OttPlatform): string {
    match p
    case Netflix => "netflix"
    case Disney => "disney"
    case Tving => "tving"
    case Wavve => "wavve"
    case Coupang => "coupang"
    case Watcha => "watcha"
  }

  /** Decodes a platform key string into the `OttPlatform` union; `None` for any other string. */
  function ParseOtt(s: string): (r: Option<OttPlatform>)
    ensures r.Some? ==> OttKey(r.value) == s
  {
    if s == "netflix" then Some(Netflix)
    else if s == "disney" then Some(Disney)
    else if s == "tving" then Some(Tving)
    else if s == "wavve" then Some(Wavve)
    else if s == "coupang" then Some(Coupang)
    else if s == "watcha" then Some(Watcha)
    else None
  }

  lemma ParseOttKey(p: OttPlatform)
    ensures ParseOtt(OttKey(p)) == Some(p)
  {
  }

  function OttLabel(p: OttPlatform): string {
    match p
    case Netflix => "넷플릭스"
    case Disney => "디즈니+"
    case Tving => "티빙"
    case Wavve => "웨이브"
    case Coupang => "쿠팡플레이"
    case Watcha => "왓챠"
  }

  function OttColor(p: OttPlatform): string {
    match p
    case Netflix => "#E50914"
    case Disney => "#113CCF"
    case Tving => "#FF0558"
    case Wavve => "#1B1B4B"
    case Coupang => "#FF5A2D"
    case Watcha => "#FF0558"
  }

  function OttUrl(p: OttPlatform): string {
    match p
    case Netflix => "https://www.netflix.com"
    case Disney => "https://www.disneyplus.com"
    case Tving => "https://www.tving.com"
    case Wavve => "https://www.wavve.com"
    case Coupang => "https://www.coupangplay.com"
    case Watcha => "https://www.watcha.com"
  }

  /**
   * There are exactly six platforms. Labels and links tell them apart; the
   * badge colour does not (tving and watcha share one).
   */
  lemma OttPlatformTables()
    ensures |AllOttPlatforms| == 6 && NoDup(AllOttPlatforms)
    ensures forall p :: p in AllOttPlatforms
    ensures forall p, q :: OttLabel(p) == OttLabel(q) ==> p == q
    ensures forall p, q :: OttUrl(p) == OttUrl(q) ==> p == q
    ensures OttColor(Tving) == OttColor(Watcha)
  {
    forall p ensures p in AllOttPlatforms {
      match p
      case Netflix => assert AllOttPlatforms[0] == p;
      case Disney => assert AllOttPlatforms[1] == p;
      case Tving => assert AllOttPlatforms[2] == p;
      case Wavve => assert AllOttPlatforms[3] == p;
      case Coupang => assert AllOttPlatforms[4] == p;
      case Watcha => assert AllOttPlatforms[5] == p;
    }
  }

  // ---------- genres ----------

  datatype Genre = Romance | Thriller | Horror | Comedy | Action | Sf | Drama
                 | Animation | Documentary | Fantasy | Crime | Mystery

  const AllGenres: seq<Genre> :=
    [Romance, Thriller, Horror, Comedy, Action, Sf, Drama, Animation, Documentary, Fantasy, Crime, Mystery]

  function GenreKey(g: Genre): string {
    match g
    case Romance => "romance"
    case Thriller => "thriller"
    case Horror => "horror"
    case Comedy => "comedy"
    case Action => "action"
    case Sf => "sf"
    case Drama => "drama"
    case Animation => "animation"
    case Documentary => "documentary"
    case Fantasy => "fantasy"
    case Crime => "crime"
    case Mystery => "mystery"
  }

  /** Decodes a genre key string into the `Genre` union; `None` for any other string. */
  function ParseGenre(s: string): (r: Option<Genre>)
    ensures r.Some? ==> GenreKey(r.value) == s
  {
    if s == "romance" then Some(Romance)
    else if s == "thriller" then Some(Thriller)
    else if s == "horror" then Some(Horror)
    else if s == "comedy" then Some(Comedy)
    else if s == "action" then Some(Action)
    else if s == "sf" then Some(Sf)
    else if s == "drama" then Some(Drama)
    else if s == "animation" then Some(Animation)
    else if s == "documentary" then Some(Documentary)
    else if s == "fantasy" then Some(Fantasy)
    else if s == "crime" then Some(Crime)
    else if s == "mystery" then Some(Mystery)
    else None
  }

  lemma ParseGenreKey(g: Genre)
    ensures ParseGenre(GenreKey(g)) == Some(g)
  {
  }

  function GenreLabel(g: Genre): string {
    match g
    case Romance => "로맨스"
    case Thriller => "스릴러"
    case Horror => "호러"
    case Comedy => "코미디"
    case Action => "액션"
    case Sf => "SF"
    case Drama => "드라마"
    case Animation => "애니메이션"
    case Documentary => "다큐멘터리"
    case Fantasy => "판타지"
    case Crime => "범죄"
    case Mystery => "미스터리"
  }

  // ---------- countries ----------

  datatype Country = Kr | Us | Jp | Gb | Fr | Es | De

  const AllCountries: seq<Country> := [Kr, Us, Jp, Gb, Fr, Es, De]

  function CountryKey(c: Country): string {
    match c
    case Kr => "kr"
    case Us => "us"
    case Jp => "jp"
    case Gb => "gb"
    case Fr => "fr"
    case Es => "es"
    case De => "de"
  }

  function CountryLabel(c: Country): string {
    match c
    case Kr => "한국"
    case Us => "미국"
    case Jp => "일본"
    case Gb => "영국"
    case Fr => "프랑스"
    case Es => "스페인"
    case De => "독일"
  }

  function CountryFlag(c: Country): string {
    match c
    case Kr => "🇰🇷"
    case Us => "🇺🇸"
    case Jp => "🇯🇵"
    case Gb => "🇬🇧"
    case Fr => "🇫🇷"
    case Es => "🇪🇸"
    case De => "🇩🇪"
  }

  // ---------- content types, sort options, media types ----------

  datatype ContentType = MovieType | DramaType | VarietyType | DocumentaryType

  const AllContentTypes: seq<ContentType> := [MovieType, DramaType, VarietyType, DocumentaryType]

  function ContentTypeLabel(t: ContentType): string {
    match t
    case MovieType => "영화"
    case DramaType => "드라마"
    case VarietyType => "예능"
    case DocumentaryType => "다큐"
  }

  datatype SortOption = ByRating | ByLatest | ByPopularity

  const AllSortOptions: seq<SortOption> := [ByRating, ByLatest, ByPopularity]

  function SortLabel(s: SortOption): string {
    match s
    case ByRating => "평점순"
    case ByLatest => "최신순"
    case ByPopularity => "인기순"
  }

  /** `"movie" | "tv"`, the kind of an upstream record. */
  datatype MediaType = Movie | Tv

  function MediaKey(m: MediaType): string {
    match m
    case Movie => "movie"
    case Tv => "tv"
  }

  /** The enumerations have twelve, seven, four and three members and their tables are total. */
  lemma EnumerationSizes()
    ensures |AllGenres| == 12 && NoDup(AllGenres) && forall g :: g in AllGenres
    ensures |AllCountries| == 7 && NoDup(AllCountries) && forall c :: c in AllCountries
    ensures |AllContentTypes| == 4 && NoDup(AllContentTypes) && forall t :: t in AllContentTypes
    ensures |AllSortOptions| == 3 && NoDup(AllSortOptions) && forall s :: s in AllSortOptions
    ensures forall g, h :: GenreKey(g) == GenreKey(h) ==> g == h
    ensures forall c, d :: CountryLabel(c) == CountryLabel(d) ==> c == d
  {
    forall g ensures g in AllGenres {
      match g
      case Romance => assert AllGenres[0] == g;
      case Thriller => assert AllGenres[1] == g;
      case Horror => assert AllGenres[2] == g;
      case Comedy => assert AllGenres[3] == g;
      case Action => assert AllGenres[4] == g;
      case Sf => assert AllGenres[5] == g;
      case Drama => assert AllGenres[6] == g;
      case Animation => assert AllGenres[7] == g;
      case Documentary => assert AllGenres[8] == g;
      case Fantasy => assert AllGenres[9] == g;
      case Crime => assert AllGenres[10] == g;
      case Mystery => assert AllGenres[11] == g;
    }
    forall c ensures c in AllCountries {
      match c
      case Kr => assert AllCountries[0] == c;
      case Us => assert AllCountries[1] == c;
      case Jp => assert AllCountries[2] == c;
      case Gb => assert AllCountries[3] == c;
      case Fr => assert AllCountries[4] == c;
      case Es => assert AllCountries[5] == c;
      case De => assert AllCountries[6] == c;
    }
    forall t ensures t in AllContentTypes {
      match t
      case MovieType => assert AllContentTypes[0] == t;
      case DramaType => assert AllContentTypes[1] == t;
      case VarietyType => assert AllContentTypes[2] == t;
      case DocumentaryType => assert AllContentTypes[3] == t;
    }
    forall o ensures o in AllSortOptions {
      match o
      case ByRating => assert AllSortOptions[0] == o;
      case ByLatest => assert AllSortOptions[1] == o;
      case ByPopularity => assert AllSortOptions[2] == o;
    }
  }

  // ---------- records ----------

  /**
   * One catalogue title. `rating` is kept in tenths (7.5 is 75), the
   * precision the record transformer rounds to.
   */
  datatype Content = Content(
    id: string,
    tmdbId: Option<int>,
    mediaType: Option<MediaType>,
    title: string,
    originalTitle: Option<string>,
    posterUrl: string,
    backdropUrl: Option<string>,
    description: string,
    rating: int,
    releaseYear: int,
    ottPlatforms: seq<OttPlatform>,
    genres: seq<Genre>,
    country: Country,
    contentType: ContentType,
    director: Option<string>,
    cast: Option<seq<string>>,
    runtime: Option<int>,
    episodes: Option<int>,
    popularity: int)

  datatype FilterState = FilterState(
    selectedOtt: seq<OttPlatform>,
    selectedGenres: seq<Genre>,
    selectedCountries: seq<Country>,
    selectedContentTypes: seq<ContentType>,
    sortBy: SortOption,
    searchQuery: string)

  const InitialFilterState: FilterState := FilterState([], [], [], [], ByPopularity, "")
}
