/**
 * The filter hook: the filter state with its setters, the count of active
 * selections, and the filtered and sorted list it derives from the catalogue.
 */
module ContentFilter {
  import opened Wrappers
  import opened Seqs
  import opened Strings
  import opened Types
  import opened ContentSort

  // ---------- toggling a selection ----------

  /** `s.filter((y) => y !== x)`: every occurrence of x dropped, the rest in order. */
  function Without<T(==)>(s: seq<T>, x: T): seq<T> {
    if s == [] then []
    else
      var y := s[|s| - 1];
      if y == x then Without(s[..|s| - 1], x) else Without(s[..|s| - 1], x) + [y]
  }

  /** Exactly the other values remain. */
  lemma {:induction false} WithoutMembers<T>(s: seq<T>, x: T)
    ensures forall y :: y in Without(s, x) <==> y in s && y != x
  {
    if s != [] {
      WithoutMembers(s[..|s| - 1], x);
      assert s == s[..|s| - 1] + [s[|s| - 1]];
    }
  }

  /** The others remain as often as they occurred, and in their order. */
  lemma {:induction false} WithoutSpec<T>(s: seq<T>, x: T)
    ensures forall y :: y != x ==> multiset(Without(s, x))[y] == multiset(s)[y]
    ensures |Without(s, x)| + multiset(s)[x] == |s|
    ensures Subsequence(Without(s, x), s)
  {
    if s == [] {
      SubsequenceEmpty(s);
    } else {
      var init := s[..|s| - 1];
      var y := s[|s| - 1];
      WithoutSpec(init, x);
      assert s == init + [y];
      assert multiset(s) == multiset(init) + multiset{y};
      if y == x {
        SubsequenceSkip(Without(init, x), init, y);
      } else {
        SubsequenceTake(Without(init, x), init, y);
      }
    }
  }

  /** Dropping a value that does not occur changes nothing. */
  lemma {:induction false} WithoutAbsent<T>(s: seq<T>, x: T)
    requires x !in s
    ensures Without(s, x) == s
  {
    if s != [] {
      WithoutAbsent(s[..|s| - 1], x);
      assert s == s[..|s| - 1] + [s[|s| - 1]];
    }
  }

  /**
   * `includes(x) ? filter((y) => y !== x) : [...s, x]`: a present value is
   * removed everywhere, keeping the others in order; an absent one is appended.
   */
  function Toggle<T(==)>(s: seq<T>, x: T): (r: seq<T>)
    ensures x in r <==> x !in s
    ensures x in s ==> r == Without(s, x) && Subsequence(r, s)
    ensures x !in s ==> r == s + [x]
  {
    WithoutMembers(s, x);
    WithoutSpec(s, x);
    if x in s then Without(s, x) else s + [x]
  }

  /** Apart from x, toggling leaves every value as often as it occurred. */
  lemma ToggleOthers<T>(s: seq<T>, x: T, y: T)
    requires y != x
    ensures multiset(Toggle(s, x))[y] == multiset(s)[y]
  {
    WithoutSpec(s, x);
  }

  /** Toggling a value twice, starting from a list without it, gives the list back. */
  lemma {:induction false} ToggleTwice<T>(s: seq<T>, x: T)
    requires x !in s
    ensures Toggle(Toggle(s, x), x) == s
  {
    var t := s + [x];
    assert t[..|t| - 1] == s;
    WithoutAbsent(s, x);
  }

  /** A list without duplicates stays so, and its length moves by one. */
  lemma ToggleNoDup<T>(s: seq<T>, x: T)
    requires NoDup(s)
    ensures NoDup(Toggle(s, x))
    ensures |Toggle(s, x)| == if x in s then |s| - 1 else |s| + 1
  {
    if x in s {
      WithoutSpec(s, x);
      NoDupMultiset(s);
      assert multiset(s)[x] == 1;
      SubsequenceNoDup(Toggle(s, x), s);
    } else {
      forall i, j | 0 <= i < j < |s| + 1 ensures (s + [x])[i] != (s + [x])[j] {
        if j == |s| {
          assert (s + [x])[i] == s[i];
        } else {
          assert (s + [x])[i] == s[i] && (s + [x])[j] == s[j];
        }
      }
    }
  }

  // ---------- the setters ----------

  function ToggleOtt(f: FilterState, ott: OttPlatform): (r: FilterState)
    ensures r.selectedOtt == Toggle(f.selectedOtt, ott)
    ensures r.(selectedOtt := f.selectedOtt) == f
  {
    f.(selectedOtt := Toggle(f.selectedOtt, ott))
  }

  function ToggleGenre(f: FilterState, genre: Genre): (r: FilterState)
    ensures r.selectedGenres == Toggle(f.selectedGenres, genre)
    ensures r.(selectedGenres := f.selectedGenres) == f
  {
    f.(selectedGenres := Toggle(f.selectedGenres, genre))
  }

  function ToggleCountry(f: FilterState, country: Country): (r: FilterState)
    ensures r.selectedCountries == Toggle(f.selectedCountries, country)
    ensures r.(selectedCountries := f.selectedCountries) == f
  {
    f.(selectedCountries := Toggle(f.selectedCountries, country))
  }

  function ToggleContentType(f: FilterState, t: ContentType): (r: FilterState)
    ensures r.selectedContentTypes == Toggle(f.selectedContentTypes, t)
    ensures r.(selectedContentTypes := f.selectedContentTypes) == f
  {
    f.(selectedContentTypes := Toggle(f.selectedContentTypes, t))
  }

  function SetSortBy(f: FilterState, sortBy: SortOption): (r: FilterState)
    ensures r.sortBy == sortBy
    ensures r.(sortBy := f.sortBy) == f
  {
    f.(sortBy := sortBy)
  }

  function SetSearchQuery(f: FilterState, searchQuery: string): (r: FilterState)
    ensures r.searchQuery == searchQuery
    ensures r.(searchQuery := f.searchQuery) == f
  {
    f.(searchQuery := searchQuery)
  }

  function ResetFilters(): FilterState {
    InitialFilterState
  }

  /** The number of chosen chips, over the four selection lists. */
  function ActiveFilterCount(f: FilterState): nat {
    |f.selectedOtt| + |f.selectedGenres| + |f.selectedCountries| + |f.selectedContentTypes|
  }

  /** Every selection list the setters can reach holds no value twice. */
  ghost predicate Reachable(f: FilterState) {
    NoDup(f.selectedOtt) && NoDup(f.selectedGenres) && NoDup(f.selectedCountries) && NoDup(f.selectedContentTypes)
  }

  /**
   * From a state whose lists hold no value twice, each toggle keeps that and
   * moves the count by one: down when the value was chosen, up otherwise.
   */
  lemma ToggleCounts(f: FilterState, ott: OttPlatform, genre: Genre, country: Country, t: ContentType)
    requires Reachable(f)
    ensures Reachable(ToggleOtt(f, ott)) && Reachable(ToggleGenre(f, genre))
    ensures Reachable(ToggleCountry(f, country)) && Reachable(ToggleContentType(f, t))
    ensures ActiveFilterCount(ToggleOtt(f, ott)) == ActiveFilterCount(f) + if ott in f.selectedOtt then -1 else 1
    ensures ActiveFilterCount(ToggleGenre(f, genre)) == ActiveFilterCount(f) + if genre in f.selectedGenres then -1 else 1
    ensures ActiveFilterCount(ToggleCountry(f, country))
            == ActiveFilterCount(f) + if country in f.selectedCountries then -1 else 1
    ensures ActiveFilterCount(ToggleContentType(f, t))
            == ActiveFilterCount(f) + if t in f.selectedContentTypes then -1 else 1
  {
    ToggleNoDup(f.selectedOtt, ott);
    ToggleNoDup(f.selectedGenres, genre);
    ToggleNoDup(f.selectedCountries, country);
    ToggleNoDup(f.selectedContentTypes, t);
  }

  /** The sort mode and the search text do not count; the count is zero exactly when nothing is chosen. */
  lemma ActiveFilterCountSpec(f: FilterState, sortBy: SortOption, q: string)
    ensures ActiveFilterCount(SetSortBy(f, sortBy)) == ActiveFilterCount(f)
    ensures ActiveFilterCount(SetSearchQuery(f, q)) == ActiveFilterCount(f)
    ensures ActiveFilterCount(f) == 0 <==>
              f.selectedOtt == [] && f.selectedGenres == [] && f.selectedCountries == [] && f.selectedContentTypes == []
    ensures ActiveFilterCount(ResetFilters()) == 0 && Reachable(ResetFilters())
  {
  }

  // ---------- the filter stages ----------

  /** The five filter stages, in the order they run. */
  datatype Stage = SearchStage | OttStage | GenreStage | CountryStage | TypeStage

  const Stages: seq<Stage> := [SearchStage, OttStage, GenreStage, CountryStage, TypeStage]

  /** Some field of c, lowered, contains the query; absent optional fields never match. */
  predicate MatchesQuery(c: Content, query: string) {
    || Contains(Lower(c.title), query)
    || (c.originalTitle.Some? && Contains(Lower(c.originalTitle.value), query))
    || Contains(Lower(c.description), query)
    || (c.cast.Some? && exists actor :: actor in c.cast.value && Contains(Lower(actor), query))
    || (c.director.Some? && Contains(Lower(c.director.value), query))
  }

  /** Whether a stage filters at all under f. */
  predicate Active(f: FilterState, st: Stage) {
    match st
    case SearchStage => Trim(f.searchQuery) != []
    case OttStage => |f.selectedOtt| > 0
    case GenreStage => |f.selectedGenres| > 0
    case CountryStage => |f.selectedCountries| > 0
    case TypeStage => |f.selectedContentTypes| > 0
  }

  /** Whether c gets through one stage: an inactive stage lets everything through. */
  predicate Passes(c: Content, f: FilterState, st: Stage) {
    !Active(f, st) ||
    match st
    case SearchStage => MatchesQuery(c, Trim(Lower(f.searchQuery)))
    case OttStage => exists o :: o in f.selectedOtt && o in c.ottPlatforms
    case GenreStage => exists g :: g in f.selectedGenres && g in c.genres
    case CountryStage => c.country in f.selectedCountries
    case TypeStage => c.contentType in f.selectedContentTypes
  }

  predicate PassesAll(c: Content, f: FilterState, stages: seq<Stage>) {
    forall st :: st in stages ==> Passes(c, f, st)
  }

  /** The items of s that get through every stage of `stages`, in order. */
  function Sift(s: seq<Content>, f: FilterState, stages: seq<Stage>): seq<Content> {
    if s == [] then []
    else
      var c := s[|s| - 1];
      if PassesAll(c, f, stages) then Sift(s[..|s| - 1], f, stages) + [c]
      else Sift(s[..|s| - 1], f, stages)
  }

  /** The items that get through all five stages: what is left before sorting. */
  function Selected(contents: seq<Content>, f: FilterState): seq<Content> {
    Sift(contents, f, Stages)
  }

  /** Sifting keeps, in order and as often as they occur, exactly the items that pass. */
  lemma {:induction false} SiftSpec(s: seq<Content>, f: FilterState, stages: seq<Stage>)
    ensures forall c :: multiset(Sift(s, f, stages))[c] == if PassesAll(c, f, stages) then multiset(s)[c] else 0
    ensures Subsequence(Sift(s, f, stages), s)
  {
    if s == [] {
      SubsequenceEmpty(s);
    } else {
      var init := s[..|s| - 1];
      var c := s[|s| - 1];
      SiftSpec(init, f, stages);
      assert s == init + [c];
      assert multiset(s) == multiset(init) + multiset{c};
      if PassesAll(c, f, stages) {
        SubsequenceTake(Sift(init, f, stages), init, c);
      } else {
        SubsequenceSkip(Sift(init, f, stages), init, c);
      }
    }
  }

  /** Running one more stage on a sifted list is sifting by the longer list of stages. */
  lemma {:induction false} SiftThen(s: seq<Content>, f: FilterState, stages: seq<Stage>, st: Stage)
    ensures Sift(Sift(s, f, stages), f, [st]) == Sift(s, f, stages + [st])
  {
    if s != [] {
      var init := s[..|s| - 1];
      var c := s[|s| - 1];
      SiftThen(init, f, stages, st);
      var a := Sift(init, f, stages);
      if PassesAll(c, f, stages) {
        var t := a + [c];
        assert t[..|t| - 1] == a;
      }
    }
  }

  /** An inactive stage removes nothing. */
  lemma {:induction false} SiftInactive(s: seq<Content>, f: FilterState, stages: seq<Stage>, st: Stage)
    requires !Active(f, st)
    ensures Sift(s, f, stages + [st]) == Sift(s, f, stages)
  {
    if s != [] {
      SiftInactive(s[..|s| - 1], f, stages, st);
    }
  }

  /** With no stage yet, nothing is removed. */
  lemma {:induction false} SiftNothing(s: seq<Content>, f: FilterState)
    ensures Sift(s, f, []) == s
  {
    if s != [] {
      SiftNothing(s[..|s| - 1], f);
    }
  }

  /** One stage of `filteredContents`: filter by it only when it is active. */
  method RunStage(result: seq<Content>, ghost contents: seq<Content>, f: FilterState, ghost done: seq<Stage>, st: Stage)
    returns (r: seq<Content>)
    requires result == Sift(contents, f, done)
    ensures r == Sift(contents, f, done + [st])
    ensures Active(f, st) ==> r == Sift(result, f, [st])
    ensures !Active(f, st) ==> r == result
  {
    if Active(f, st) {
      SiftThen(contents, f, done, st);
      r := Sift(result, f, [st]);
    } else {
      SiftInactive(contents, f, done, st);
      r := result;
    }
  }

  /**
   * `filteredContents`: copy the catalogue, run each active stage in turn,
   * then sort by the chosen mode.
   */
  method FilteredContents(contents: seq<Content>, f: FilterState) returns (result: seq<Content>)
    ensures result == SortContents(Selected(contents, f), f.sortBy)
  {
    result := contents;
    SiftNothing(contents, f);
    result := RunStage(result, contents, f, [], SearchStage);
    assert [] + [SearchStage] == [SearchStage];
    result := RunStage(result, contents, f, [SearchStage], OttStage);
    assert [SearchStage] + [OttStage] == [SearchStage, OttStage];
    result := RunStage(result, contents, f, [SearchStage, OttStage], GenreStage);
    assert [SearchStage, OttStage] + [GenreStage] == [SearchStage, OttStage, GenreStage];
    result := RunStage(result, contents, f, [SearchStage, OttStage, GenreStage], CountryStage);
    assert [SearchStage, OttStage, GenreStage] + [CountryStage] == [SearchStage, OttStage, GenreStage, CountryStage];
    result := RunStage(result, contents, f, [SearchStage, OttStage, GenreStage, CountryStage], TypeStage);
    assert [SearchStage, OttStage, GenreStage, CountryStage] + [TypeStage] == Stages;
    match f.sortBy
    case ByRating => result := SortContents(result, ByRating);
    case ByLatest => result := SortContents(result, ByLatest);
    case ByPopularity => result := SortContents(result, ByPopularity);
  }

  // ---------- what the filter keeps ----------

  /**
   * An item is kept iff it gets through all five stages; the kept items are
   * a subsequence of the catalogue, each as often as it occurs there.
   */
  lemma SelectedSpec(contents: seq<Content>, f: FilterState)
    ensures forall c :: c in Selected(contents, f) <==>
              c in contents && Passes(c, f, SearchStage) && Passes(c, f, OttStage) && Passes(c, f, GenreStage)
              && Passes(c, f, CountryStage) && Passes(c, f, TypeStage)
    ensures forall c :: c in Selected(contents, f) ==> multiset(Selected(contents, f))[c] == multiset(contents)[c]
    ensures Subsequence(Selected(contents, f), contents)
  {
    SiftSpec(contents, f, Stages);
    forall c ensures PassesAll(c, f, Stages) <==>
                       Passes(c, f, SearchStage) && Passes(c, f, OttStage) && Passes(c, f, GenreStage)
                       && Passes(c, f, CountryStage) && Passes(c, f, TypeStage) {
      assert Stages[0] == SearchStage && Stages[1] == OttStage && Stages[2] == GenreStage;
      assert Stages[3] == CountryStage && Stages[4] == TypeStage;
    }
  }

  /**
   * A query that is blank after trimming removes nothing; otherwise an item
   * stays iff the lowered, trimmed query occurs in its lowered title, original
   * title, description, one of its cast or its director.
   */
  lemma SearchRule(c: Content, f: FilterState)
    ensures Trim(f.searchQuery) == [] ==> Passes(c, f, SearchStage)
    ensures Trim(f.searchQuery) != [] ==>
              (Passes(c, f, SearchStage) <==>
                 var q := Trim(Lower(f.searchQuery));
                 || (exists i :: OccursAt(Lower(c.title), q, i))
                 || (c.originalTitle.Some? && exists i :: OccursAt(Lower(c.originalTitle.value), q, i))
                 || (exists i :: OccursAt(Lower(c.description), q, i))
                 || (c.cast.Some? && exists actor, i :: actor in c.cast.value && OccursAt(Lower(actor), q, i))
                 || (c.director.Some? && exists i :: OccursAt(Lower(c.director.value), q, i)))
  {
    var q := Trim(Lower(f.searchQuery));
    ContainsSpec(Lower(c.title), q);
    if c.originalTitle.Some? {
      ContainsSpec(Lower(c.originalTitle.value), q);
    }
    ContainsSpec(Lower(c.description), q);
    if c.director.Some? {
      ContainsSpec(Lower(c.director.value), q);
    }
    if c.cast.Some? {
      forall actor | actor in c.cast.value {
        ContainsSpec(Lower(actor), q);
      }
    }
  }

  /** With no query and no selection, the whole catalogue is kept in its order. */
  lemma {:induction false} NoFiltersKeepAll(contents: seq<Content>, f: FilterState)
    requires Trim(f.searchQuery) == []
    requires ActiveFilterCount(f) == 0
    ensures Selected(contents, f) == contents
  {
    if contents != [] {
      NoFiltersKeepAll(contents[..|contents| - 1], f);
    }
  }

  /**
   * The list shown is non-increasing in the chosen key, a permutation of the
   * kept items, and keeps items of equal key in catalogue order.
   */
  lemma FilteredOrder(contents: seq<Content>, f: FilterState)
    ensures SortedDesc(SortContents(Selected(contents, f), f.sortBy), f.sortBy)
    ensures multiset(SortContents(Selected(contents, f), f.sortBy)) == multiset(Selected(contents, f))
    ensures forall k :: WithKey(SortContents(Selected(contents, f), f.sortBy), f.sortBy, k)
                        == WithKey(Selected(contents, f), f.sortBy, k)
  {
    SortContentsSpec(Selected(contents, f), f.sortBy);
  }

  /** Changing the sort mode reorders the list shown but keeps the same items. */
  lemma SortModeKeepsItems(contents: seq<Content>, f: FilterState, sortBy: SortOption)
    ensures Selected(contents, SetSortBy(f, sortBy)) == Selected(contents, f)
    ensures multiset(SortContents(Selected(contents, SetSortBy(f, sortBy)), sortBy))
            == multiset(SortContents(Selected(contents, f), f.sortBy))
  {
    SiftSortMode(contents, f, sortBy);
    SortContentsSpec(Selected(contents, f), sortBy);
    SortContentsSpec(Selected(contents, f), f.sortBy);
  }

  lemma {:induction false} SiftSortMode(s: seq<Content>, f: FilterState, sortBy: SortOption)
    ensures Sift(s, SetSortBy(f, sortBy), Stages) == Sift(s, f, Stages)
  {
    if s != [] {
      SiftSortMode(s[..|s| - 1], f, sortBy);
      var c := s[|s| - 1];
      assert PassesAll(c, SetSortBy(f, sortBy), Stages) == PassesAll(c, f, Stages) by {
        forall st ensures Passes(c, SetSortBy(f, sortBy), st) == Passes(c, f, st) {
          assert Active(SetSortBy(f, sortBy), st) == Active(f, st);
        }
      }
    }
  }

  /** After a reset the whole catalogue is shown, most popular first. */
  lemma ResetShowsAll(contents: seq<Content>)
    ensures Selected(contents, ResetFilters()) == contents
    ensures ResetFilters().sortBy == ByPopularity
  {
    assert Trim(ResetFilters().searchQuery) == [];
    NoFiltersKeepAll(contents, ResetFilters());
  }
}
