# bomPick catalogue core, modelled in Dafny

bomPick is a browser app that lists the films and series available on six
Korean subscription platforms (Netflix, Disney+, TVING, wavve, Coupang Play
and WATCHA). Its core is an in-memory pipeline, and this project models it
and proves properties of it:

1. **Fetch worklist.** Each platform gets a fixed number of pages of movie
   and TV "discover" requests to the upstream catalogue service. The
   parameters of those requests are fixed too.
2. **Merge.** The settled responses are combined into one record per title.
   The first item seen under a key `mediaType-id` creates the record through
   the record transformer. Later items under the same key only add their
   platform. The merged list is sorted by popularity, most popular first.
3. **Loader state.** The loading hook keeps `contents`, `isLoading` and
   `error`, and has a cancellation flag.
4. **Record transformer.** This covers image locators, country inference,
   the genre and provider tables, and the construction of one `Content`.
5. **Filter hook.** It holds the filter state and its setters, and the count
   of active selections. It derives the shown list with five conjunctive
   stages (search text, platform, genre, country, content type) and a stable
   descending sort by rating, year or popularity.
6. **Pagination hook.** A class with a single `visibleCount` counter. It
   supports prefix slicing, `hasMore`, a clamped `loadMore`, and a reset when
   the list or the page size changes.

## Layout

One module per source file, plus three helper modules:

| module | file | source |
|---|---|---|
| `Types` | `types.dfy` | `src/types/index.ts` |
| `Tmdb` | `tmdb.dfy` | `src/services/tmdb.ts` (tables and request parameters) |
| `Transformers` | `transformers.dfy` | `src/utils/transformers.ts` |
| `CatalogFetch` | `fetch.dfy` | `src/hooks/useTMDb.ts` (worklist) |
| `CatalogMerge` | `merge.dfy` | `src/hooks/useTMDb.ts` (merge loop and sort) |
| `CatalogLoader` | `loader.dfy` | `src/hooks/useTMDb.ts` (state cells and `loadData`) |
| `ContentFilter` | `filter.dfy` | `src/hooks/useContentFilter.ts` |
| `ContentSort` | `sort.dfy` | `Array.prototype.sort` with the key comparators |
| `Paging` | `pagination.dfy` | `src/hooks/usePagination.ts` |
| `Seqs`, `Strings`, `Wrappers` | `seqs.dfy`, `strings.dfy`, `wrappers.dfy` | JavaScript `Set` order, string built-ins, `Option` |

### How the code's state is represented

- **Loops become methods.** The loops that fill `fetchTasks` and the
  `contentMap`, the sets filled by `mapGenres` and `mapProviders`, the
  stage-by-stage reassignment in `filteredContents`, and the pagination
  counter are all methods. Each is proved equal to a specification function.
  The properties are then proved as lemmas about those functions.
- **The JavaScript `Map`** is an `Accumulator` value. It holds the insertion
  order beside a `map<string, Content>`.
- **The awaited responses** are `seq<Option<seq<RawItem>>>`, one entry per
  worklist task. `None` stands for a rejected request.
- **The two hooks with state** are classes. `Loader` holds the three state
  cells of the loading hook. `Pagination` holds the list, the page size and
  `visibleCount`.

## Model

| member | source | states |
|---|---|---|
| `Types.ParseOtt` | src/types/index.ts:2-8 | Decodes a key string into the `OttPlatform` union: a string decodes exactly when it is some platform's key. |
| `Types.ParseOttKey` | src/types/index.ts:2-8 | Every platform key decodes back to that platform. |
| `Types.OttPlatformTables` | src/types/index.ts:2-35 | There are exactly six platforms, each listed once. Labels and links are injective. TVING and WATCHA share a badge colour. |
| `Types.ParseGenre` | src/types/index.ts:38-50 | Decodes a key string into the `Genre` union: a string decodes exactly when it is some genre's key. |
| `Types.ParseGenreKey` | src/types/index.ts:38-50 | Every genre key decodes back to that genre. |
| `Types.EnumerationSizes` | src/types/index.ts:38-140 | Genre, Country, ContentType and SortOption have 12, 7, 4 and 3 members, each listed once. Genre keys and country labels are injective. |
| `Tmdb.ProviderIdMapTable` | src/services/tmdb.ts:168-177 | The provider table has exactly the keys 8, 337, 97, 356, 1796 and 2039. Every value names a platform, no two keys share a value, and every platform is reached. |
| `Tmdb.KrProviderIdsJoin` | src/services/tmdb.ts:108 | The combined provider parameter is the six decimal ids joined with a vertical bar between each two. |
| `Tmdb.KrProviderIdsAreTableKeys` | src/services/tmdb.ts:108 | An integer's decimal text is one of the joined ids exactly when the integer is a key of the provider table. |
| `Tmdb.GenreIdMapValuesAreGenres` | src/services/tmdb.ts:180-210 | Every value of the genre table is a member of the Genre enumeration. |
| `Tmdb.GenreIdMapCoversGenres` | src/services/tmdb.ts:180-210 | Every genre is the image of some upstream id. |
| `Tmdb.ActionGenreIds` | src/services/tmdb.ts:182-202 | The table is many-to-one: the ids sent to action are exactly 28, 12, 10752, 37 and 10759. |
| `Tmdb.SingleSourceGenres` | src/services/tmdb.ts:180-210 | Romance, horror and comedy are each reached from exactly one id. |
| `Tmdb.MoreSingleSourceGenres` | src/services/tmdb.ts:180-210 | Crime, mystery and fantasy are each reached from exactly one id. |
| `Tmdb.Discover` | src/services/tmdb.ts:114-145 | The request path is `/discover/movie` or `/discover/tv`, and it carries exactly five parameters. The page is its decimal text. The region is KR, monetization is flatrate and the order is popularity.desc. The provider is the given id when it is non-empty, and the six-id default otherwise. |
| `Transformers.PosterUrl` | src/utils/transformers.ts:16-19 | The result is empty exactly when the path is null or empty. Otherwise it is the image base, `/`, the size and the path. |
| `Transformers.BackdropUrl` | src/utils/transformers.ts:22-25 | The result is empty exactly when the path is null or empty. Otherwise it splits into the image base with `/` and the size, followed by the path itself. |
| `Transformers.RoundHalfUp` | src/utils/transformers.ts:100-106 | `Math.round`: the result is within half of x, and exact halves go up. |
| `Transformers.MapCountry` | src/utils/transformers.ts:28-54 | A known first origin code decides. Otherwise a known language decides. Otherwise the result is the US. The function is total. |
| `Transformers.RegionCountriesAreCountryKeys` | src/utils/transformers.ts:33-41 | Each region code lower-cases to the key of the country it maps to, and every country is reached. |
| `Transformers.MapCountryIgnoresLanguage` | src/utils/transformers.ts:32-42 | With a known first origin code, the language plays no part. |
| `Transformers.MapCountryDefault` | src/utils/transformers.ts:44-53 | With an absent, empty or blank country list and an unknown language, the result is the US. |
| `Transformers.GenresOfSpec` | src/utils/transformers.ts:57-64 | The mapped genres hold no duplicates. A genre is among them exactly when the table sends some input id to it, so unknown ids are dropped. |
| `Transformers.MapGenres` | src/utils/transformers.ts:57-64 | The `forEach` loop that fills the Set yields the known genres in first-occurrence order. The guard `ParseGenre(...).Some?` stands for `if (mapped)`; the two agree because every table value is a genre key (`Tmdb.GenreIdMapValuesAreGenres`). |
| `Transformers.ProvidersOfSpec` | src/utils/transformers.ts:67-75 | The output holds no duplicates. A platform is present exactly when a Korean flat-rate entry has an id the table sends to it. Without `results` or a KR entry the output is empty. |
| `Transformers.MapProviders` | src/utils/transformers.ts:67-75 | The `forEach` loop that fills the Set yields the known Korean flat-rate platforms in first-occurrence order. The guard `ParseOtt(...).Some?` stands for `if (mapped)`; the two agree because every table value is a platform key (`Tmdb.ProviderIdMapTable`). |
| `Transformers.TypedIdRoundTrip` | src/hooks/useTMDb.ts:103 | The merge key `${mediaType}-${id}` reads back as its kind and id. |
| `Transformers.TypedIdInjective` | src/hooks/useTMDb.ts:103 | Equal merge keys mean the same kind and the same upstream id. |
| `Transformers.ContentIdRoundTrip` | src/utils/transformers.ts:92 | The record id `tmdb-${mediaType}-${id}` reads back as its kind and id. |
| `Transformers.TransformSpec` | src/utils/transformers.ts:78-108 | Each field of the record follows the item. The id reads back as the item's kind and id, and `tmdbId`/`mediaType` are copied; the platforms are the given list; the content type is movie for movies and drama for TV; title and original title come from the kind's own fields, with `""` for a missing one; the description is the placeholder when the overview is empty, and the overview otherwise; the year is 0 when the chosen date is empty, and `year(date)` otherwise; rating (in tenths) and popularity are rounded; genres, country and image locators come from their mappers; director, cast, runtime and episodes are absent |
| `Transformers.TransformMovieSpec` | src/utils/transformers.ts:111-124 | A discover movie becomes a movie record. Its id carries the movie's id, its title and original title are the movie's, and its year comes from `release_date`. |
| `Transformers.TransformTvSpec` | src/utils/transformers.ts:127-137 | A discover TV show becomes a drama record. Its id carries the show's id, its title and original title are the show's names, and its year comes from `first_air_date`. |
| `Strings.IntToStringInjective` | src/hooks/useTMDb.ts:85-87 | `String(n)` gives different integers different texts, because the text reads back as the integer. |
| `Strings.ContainsSpec` | src/hooks/useContentFilter.ts:81-85 | `includes` is true exactly when the query occurs at some index of the text. |
| `Strings.TrimEmpty` | src/hooks/useContentFilter.ts:77 | `trim()` gives `""` exactly when every character is ECMAScript white space. |
| `Strings.LowerKeepsSpace` | src/hooks/useContentFilter.ts:77-78 | Lower-casing and then trimming gives `""` exactly when trimming alone does. |
| `Seqs.DistinctSpec` | src/utils/transformers.ts:58-63 | `Array.from` of a Set filled in order holds each value of the input once and nothing else. |
| `Seqs.DistinctOrder` | src/utils/transformers.ts:58-63 | The Set fill keeps the input's values as a subsequence of it, and lists x before y exactly when x first occurs in the input before y. |
| `CatalogFetch.BuildWorklist` | src/hooks/useTMDb.ts:46-79 | The nested loops produce exactly the worklist specification. |
| `CatalogFetch.PageTasksIndex` | src/hooks/useTMDb.ts:65-78 | One platform's tasks in closed form: position i asks page i/2+1, movies at even positions and TV at odd ones. |
| `CatalogFetch.OttProviderEntriesTable` | src/hooks/useTMDb.ts:9-16 | The entry list pairs each platform with exactly its own provider id. |
| `CatalogFetch.WorklistMembers` | src/hooks/useTMDb.ts:54-79 | A task is in the worklist exactly when it has its platform's provider id and a page from 1 to that platform's page count. |
| `CatalogFetch.WorklistShape` | src/hooks/useTMDb.ts:54-79 | There are 2·(3+3+3+2+2+2) = 30 tasks, none repeated. |
| `CatalogFetch.ProviderIdsInverse` | src/hooks/useTMDb.ts:9-16 | The per-platform ids are the inverse of the provider table, in both directions. |
| `CatalogFetch.WorklistRequests` | src/hooks/useTMDb.ts:82-90 | Each task's request is the discover of its own kind and page, restricted to the task's provider id alone. That id is one of the ids in the default. |
| `CatalogMerge.CreateSpec` | src/hooks/useTMDb.ts:111-119 | A new record is `transformMovie` or `transformTV` of the item with `[task.ott]`. Its id reads back as the merge key. |
| `CatalogMerge.StepRecord` | src/hooks/useTMDb.ts:103-120 | One item changes only the record under its own key. A new key gets a created record. A known key gains the task's platform if it is absent, and the rest of the record stays the same. |
| `CatalogMerge.WalkItems` | src/hooks/useTMDb.ts:102-121 | After the `items.forEach` loop, the map and its insertion order are those of the specification walk over the earlier hits followed by this response's hits. |
| `CatalogMerge.MergeResults` | src/hooks/useTMDb.ts:95-126 | The `results.forEach` loop skips rejected responses. Together with the final sort it computes the catalogue specification. |
| `CatalogMerge.AllHitsSpec` | src/hooks/useTMDb.ts:97-100 | The walk sees exactly the items of fulfilled responses, each paired with the task at its response's index. |
| `CatalogMerge.AllRejectedCatalog` | src/hooks/useTMDb.ts:97-98 | When every request is rejected, nothing is walked and the published list is empty. |
| `CatalogMerge.FoldKeys` | src/hooks/useTMDb.ts:95-121 | The map's keys are exactly the keys seen. Its insertion order is those keys in first-seen order, each once. |
| `CatalogMerge.FoldRecord` | src/hooks/useTMDb.ts:106-110 | A record's platform list is the Set-order list of the platforms of the hits under its key. |
| `CatalogMerge.RecordPlatforms` | src/hooks/useTMDb.ts:106-110 | A record's platforms hold no duplicates. A platform is present exactly when a task of that platform returned the key. |
| `CatalogMerge.RecordFirstWriter` | src/hooks/useTMDb.ts:111-119 | Apart from its platforms, a record is the one created by the first hit under its key. |
| `CatalogMerge.DistinctRecordIds` | src/hooks/useTMDb.ts:103 | Records under different keys have different ids. |
| `CatalogMerge.ValuesSpec` | src/hooks/useTMDb.ts:125 | `Array.from(contentMap.values())` lists the records in key insertion order. |
| `CatalogMerge.CatalogOrder` | src/hooks/useTMDb.ts:124-126 | The published list is non-increasing in popularity and holds one record per distinct key, with pairwise distinct ids. Records of equal popularity keep first-seen order. |
| `CatalogMerge.CatalogRecords` | src/hooks/useTMDb.ts:95-126 | The published records are exactly the merged records, each stored under the key its id reads back as. |
| `CatalogMerge.CatalogCoverage` | src/hooks/useTMDb.ts:95-126 | Every fulfilled item has a published record under its key. |
| `CatalogMerge.CatalogProvenance` | src/hooks/useTMDb.ts:95-126 | Each published record's key was seen. Its platforms are those of the tasks that returned the key, without duplicates. Every other field comes from the first hit. |
| `CatalogLoader.Loader.constructor` | src/hooks/useTMDb.ts:33-35 | The first render has empty contents, is loading and has no error. |
| `CatalogLoader.Loader.LoadData` | src/hooks/useTMDb.ts:40-141 | A cancelled run publishes nothing and leaves the flags as reset. Otherwise loading is cleared, and either the merged catalogue is published with no error, or the thrown value's message (or the fallback text) is recorded and contents are kept. |
| `ContentFilter.WithoutSpec` | src/hooks/useContentFilter.ts:20 | `filter(y => y !== x)` keeps every other value with its multiplicity and order, and drops every x. |
| `ContentFilter.Toggle` | src/hooks/useContentFilter.ts:19-21 | A present value is removed everywhere, leaving a subsequence. An absent value is appended. The value is in the result exactly when it was not in the input. |
| `ContentFilter.ToggleOthers` | src/hooks/useContentFilter.ts:19-21 | A toggle leaves every other value's multiplicity unchanged. |
| `ContentFilter.ToggleTwice` | src/hooks/useContentFilter.ts:19-21 | Toggling an absent value twice gives the list back. |
| `ContentFilter.ToggleNoDup` | src/hooks/useContentFilter.ts:16-50 | A toggle keeps a list free of duplicates, and its length moves by exactly one. |
| `ContentFilter.ToggleOtt` | src/hooks/useContentFilter.ts:16-23 | Only the platform selection changes, and it is toggled. |
| `ContentFilter.ToggleGenre` | src/hooks/useContentFilter.ts:25-32 | Only the genre selection changes, and it is toggled. |
| `ContentFilter.ToggleCountry` | src/hooks/useContentFilter.ts:34-41 | Only the country selection changes, and it is toggled. |
| `ContentFilter.ToggleContentType` | src/hooks/useContentFilter.ts:43-50 | Only the content-type selection changes, and it is toggled. |
| `ContentFilter.SetSortBy` | src/hooks/useContentFilter.ts:52-54 | Only the sort mode changes. |
| `ContentFilter.SetSearchQuery` | src/hooks/useContentFilter.ts:56-58 | Only the search text changes. |
| `ContentFilter.ToggleCounts` | src/hooks/useContentFilter.ts:64-71 | From duplicate-free selections, each toggle keeps them duplicate-free. The active count drops by one when the value was chosen and rises by one otherwise. |
| `ContentFilter.ActiveFilterCountSpec` | src/hooks/useContentFilter.ts:60-71 | Sort mode and search text do not count. The count is zero exactly when all four selections are empty. A reset has count zero. |
| `ContentFilter.SearchRule` | src/hooks/useContentFilter.ts:77-87 | A blank query keeps everything. Otherwise an item stays exactly when the lowered, trimmed query occurs in its lowered title, original title, description, a cast member or director. Absent fields never match. |
| `ContentFilter.SiftSpec` | src/hooks/useContentFilter.ts:74-115 | Filtering keeps exactly the passing items, as often as they occur, as a subsequence. |
| `ContentFilter.SelectedSpec` | src/hooks/useContentFilter.ts:74-115 | An item is kept exactly when it passes all five stages. The kept items form a subsequence of the catalogue with the same multiplicities. |
| `ContentFilter.RunStage` | src/hooks/useContentFilter.ts:76-115 | An active stage filters the running result. An inactive stage leaves it as is. Either way the result is the catalogue sifted by the stages run so far. |
| `ContentFilter.FilteredContents` | src/hooks/useContentFilter.ts:73-131 | The copy, the five guarded stages and the switch on the sort mode compute the sorted selection. |
| `ContentFilter.NoFiltersKeepAll` | src/hooks/useContentFilter.ts:74-115 | With a blank query and no selection, the whole catalogue is kept in order. |
| `ContentFilter.FilteredOrder` | src/hooks/useContentFilter.ts:117-128 | The shown list is non-increasing in the chosen key and is a permutation of the kept items. Equal keys keep catalogue order. |
| `ContentFilter.SortModeKeepsItems` | src/hooks/useContentFilter.ts:117-128 | Changing the sort mode keeps the same items. |
| `ContentFilter.ResetShowsAll` | src/hooks/useContentFilter.ts:60-62 | After a reset the whole catalogue is kept, sorted by popularity. |
| `ContentSort.SortContentsSpec` | src/hooks/useContentFilter.ts:118-128 | The sort's output is non-increasing in the key, holds the same elements and length, and is stable: each key's elements keep their input order. |
| `ContentSort.InsertWithKey` | src/hooks/useContentFilter.ts:118-128 | Insertion places an element after every element of its key that is already placed. |
| `Paging.NextVisible` | src/hooks/usePagination.ts:33-35 | `Math.min(prev + pageSize, n)`: the result is at most n, never below prev when prev ≤ n, and either n or prev + pageSize. |
| `Paging.LoadMoreTimesClosed` | src/hooks/usePagination.ts:33-35 | From inside the list, k more pages show min(prev + k·pageSize, n) items. |
| `Paging.LoadMoreReachesEnd` | src/hooks/usePagination.ts:31-35 | With a positive page size, n more pages reach the end. With page size 0 the window never grows. |
| `Paging.Pagination.constructor` | src/hooks/usePagination.ts:15-19 | The first render shows one page. |
| `Paging.Pagination.WithDefaultPageSize` | src/hooks/usePagination.ts:17-19 | Without a page size, the size and the first window are 24. |
| `Paging.Pagination.Update` | src/hooks/usePagination.ts:22-24 | A new list or page size resets the window to one page. |
| `Paging.Pagination.LoadMore` | src/hooks/usePagination.ts:33-35 | Only the window changes, to the next clamped page. |
| `Paging.Pagination.VisibleItems` | src/hooks/usePagination.ts:26-29 | The visible items are the prefix of the list of length min(visibleCount, n). |
| `Paging.Pagination.ReportedVisibleCount` | src/hooks/usePagination.ts:31-42 | The reported count is at most the total and equals the number of visible items. `hasMore` holds exactly when it is below the total. |

## Behaviour on total failure

If every discover request is rejected, the code walks no response, publishes
an empty list and clears the loading flag. The code does not set `error` in
this case: only an exception thrown after the requests settle sets it
(`src/hooks/useTMDb.ts` lines 97-98 and 129-141). `CatalogMerge.AllRejectedCatalog` and the second `ensures` of
`CatalogLoader.Loader.LoadData` together prove that a run with every request
rejected ends with `contents == []`, `isLoading == false` and `error == None`.

## Left out

- **Network I/O.** `fetchJson`, `buildUrl` with its `URL` object,
  `fetchWatchProviders` and `searchMulti` are left out. The responses are
  inputs (`results: seq<Option<seq<RawItem>>>`). A response without a
  `results` field is not representable.
- **Concurrency and React.** `Promise.allSettled`, `useState`, `useEffect`,
  `useMemo` and `useCallback` are not modelled. `allSettled` keeps index
  order, so it becomes one optional result per task. Hook state is class
  fields or plain parameters.
- **Exceptions.** An exception raised after the requests settle is the
  `thrown` parameter of `LoadData`. The model does not say which inputs
  throw.
- **Cancellation.** The cleanup that sets `cancelled` is the `cancelled`
  parameter of `LoadData`, read once the requests have settled. After that
  point the source runs synchronously, so the flag cannot change.
- **Floating point.** Numbers are exact reals and integers.
- Transformers.TransformSpec: states the rating in tenths, as
  `RoundHalfUp(vote_average * 10)` rather than that value divided by 10.0;
  ratings compare the same either way. The year is a parameter
  `year: string -> int` standing for `new Date(s).getFullYear()`, so the NaN
  of an unparsable non-empty date is not representable.
- Transformers.RoundHalfUp: rounds an exact real; binary rounding of
  `vote_average * 10` is not modelled.
- Transformers.MapCountry: does not model prototype keys. The source
  looks the code up in an object literal, so a code such as `constructor`
  would hit an inherited property. The model treats the tables as plain maps.
  Upstream codes are two-letter ISO codes.
- Strings.Lower: lower-cases ASCII capitals only.
  `toLowerCase` in the source folds all of Unicode. `trim` is modelled with
  ECMAScript's full white-space set.
- **In-place updates.**
  - The in-place `sort` calls are modelled on values, as a stable insertion
    sort (`ContentSort.SortContents`). `Array.prototype.sort` has been
    required to be stable since ECMAScript 2019.
  - `existing.ottPlatforms.push(...)` is modelled as storing an updated
    record in the map. Nothing else in the source holds a reference to the
    record during the merge, so order and contents are the same.
- Paging.Pagination.Update: resets on every call. It stands for a render
  with a new list or page size followed by the reset effect. The one frame
  before the effect runs, where the old `visibleCount` meets the new list, is
  not modelled. The page size is a `nat`; negative or fractional sizes are
  not modelled.
- **Not part of this model:**
  - moods (`Mood`, `MOOD_LABELS`, `MOOD_EMOJIS`), which no filter reads;
  - the UI components, `src/pages/HomePage.tsx`, `src/App.tsx` and
    `src/hooks/useDarkMode.ts` (browser storage and the DOM);
