/**
 * The merge of the settled discover responses: every fulfilled response is
 * walked in worklist order, the first item seen under a key creates the
 * record, and later items under the same key only add their platform.
 */
module CatalogMerge {
  import opened Wrappers
  import opened Seqs
  import opened Types
  import opened Tmdb
  import opened Transformers
  import opened ContentSort
  import opened CatalogFetch

  /** One result item of a discover response, of either kind. */
  datatype RawItem = MovieItem(movie: TmdbMovie) | TvItem(tv: TmdbTv)

  function RawId(item: RawItem): int {
    match item
    case MovieItem(m) => m.id
    case TvItem(t) => t.id
  }

  /**
   * The item as `transformMovie` / `transformTV` read it when the task's kind
   * decides the cast: the spread of the item with `media_type` set to the
   * task's kind.
   */
  function AsItemOfKind(item: RawItem, kind: MediaType): TrendingItem {
    match item
    case MovieItem(m) => MovieAsItem(m).(mediaType := kind)
    case TvItem(t) => TvAsItem(t).(mediaType := kind)
  }

  /** One item together with the task whose response held it. */
  datatype Hit = Hit(task: Task, item: RawItem)

  /** The merge key `${task.mediaType}-${item.id}`. */
  function HitKey(h: Hit): string {
    TypedId(h.task.mediaType, RawId(h.item))
  }

  /** The record the first hit of a key creates, listing only the task's platform. */
  function Create(h: Hit, year: string -> int): Content {
    TransformTrendingItem(AsItemOfKind(h.item, h.task.mediaType), [h.task.ott], year)
  }

  /**
   * A hit whose item has its task's kind is created by `transformMovie` or
   * `transformTV`, and the created record's id reads back as the hit's key.
   */
  lemma CreateSpec(h: Hit, year: string -> int)
    ensures h.task.mediaType == Movie && h.item.MovieItem? ==>
              Create(h, year) == TransformMovie(h.item.movie, [h.task.ott], year)
    ensures h.task.mediaType == Tv && h.item.TvItem? ==>
              Create(h, year) == TransformTv(h.item.tv, [h.task.ott], year)
    ensures ParseContentId(Create(h, year).id) == ParseTypedId(HitKey(h))
    ensures Create(h, year).ottPlatforms == [h.task.ott]
  {
    TransformSpec(AsItemOfKind(h.item, h.task.mediaType), [h.task.ott], year);
    TypedIdRoundTrip(h.task.mediaType, RawId(h.item));
  }

  // ---------- the walk ----------

  /** `contentMap`, with its insertion order kept beside it. */
  datatype Accumulator = Accumulator(order: seq<string>, records: map<string, Content>)

  /** One item of the walk. */
  function Step(acc: Accumulator, h: Hit, year: string -> int): Accumulator {
    var key := HitKey(h);
    if key in acc.records then
      var existing := acc.records[key];
      if h.task.ott in existing.ottPlatforms then acc
      else acc.(records := acc.records[key := existing.(ottPlatforms := existing.ottPlatforms + [h.task.ott])])
    else Accumulator(acc.order + [key], acc.records[key := Create(h, year)])
  }

  /** What one step does to the record under a key. */
  lemma StepRecord(acc: Accumulator, h: Hit, year: string -> int, k: string)
    ensures k in Step(acc, h, year).records <==> k in acc.records || k == HitKey(h)
    ensures k != HitKey(h) && k in acc.records ==> Step(acc, h, year).records[k] == acc.records[k]
    ensures k == HitKey(h) && k in acc.records ==>
              Step(acc, h, year).records[k] == acc.records[k].(ottPlatforms :=
                if h.task.ott in acc.records[k].ottPlatforms then acc.records[k].ottPlatforms
                else acc.records[k].ottPlatforms + [h.task.ott])
    ensures k == HitKey(h) && k !in acc.records ==> Step(acc, h, year).records[k] == Create(h, year)
  {
  }

  /** The walk over a sequence of hits, from an empty map. */
  function Fold(hits: seq<Hit>, year: string -> int): Accumulator {
    if hits == [] then Accumulator([], map[])
    else Step(Fold(hits[..|hits| - 1], year), hits[|hits| - 1], year)
  }

  /** `Array.from(contentMap.values())`. */
  function Values(order: seq<string>, records: map<string, Content>): seq<Content> {
    if order == [] then []
    else
      var k := order[|order| - 1];
      if k in records then Values(order[..|order| - 1], records) + [records[k]]
      else Values(order[..|order| - 1], records)
  }

  /** The items of one fulfilled response, each with its task. */
  function HitsOf(task: Task, items: seq<RawItem>): seq<Hit> {
    if items == [] then []
    else HitsOf(task, items[..|items| - 1]) + [Hit(task, items[|items| - 1])]
  }

  /**
   * The items of all fulfilled responses in worklist order, each with the
   * task at its response's index; rejected responses give none.
   */
  function AllHits(tasks: seq<Task>, results: seq<Option<seq<RawItem>>>): seq<Hit> {
    if results == [] then []
    else
      var i := |results| - 1;
      if i < |tasks| && results[i].Some? then AllHits(tasks, results[..i]) + HitsOf(tasks[i], results[i].value)
      else AllHits(tasks, results[..i])
  }

  /** The published list: the merged records sorted by popularity, most popular first. */
  function Catalog(tasks: seq<Task>, results: seq<Option<seq<RawItem>>>, year: string -> int): seq<Content> {
    var acc := Fold(AllHits(tasks, results), year);
    SortContents(Values(acc.order, acc.records), ByPopularity)
  }

  // ---------- the walk as the source runs it ----------

  lemma FoldSnoc(hits: seq<Hit>, h: Hit, year: string -> int)
    ensures Fold(hits + [h], year) == Step(Fold(hits, year), h, year)
  {
    assert (hits + [h])[..|hits|] == hits;
  }

  lemma HitsOfSnoc(task: Task, items: seq<RawItem>, j: nat)
    requires j < |items|
    ensures HitsOf(task, items[..j + 1]) == HitsOf(task, items[..j]) + [Hit(task, items[j])]
  {
    assert items[..j + 1][..j] == items[..j];
  }

  lemma AllHitsSnoc(tasks: seq<Task>, results: seq<Option<seq<RawItem>>>, i: nat)
    requires i < |results|
    ensures i < |tasks| && results[i].Some? ==>
              AllHits(tasks, results[..i + 1]) == AllHits(tasks, results[..i]) + HitsOf(tasks[i], results[i].value)
    ensures !(i < |tasks| && results[i].Some?) ==> AllHits(tasks, results[..i + 1]) == AllHits(tasks, results[..i])
  {
    assert results[..i + 1][..i] == results[..i];
  }

  lemma {:induction false} HitsOfConcat(a: seq<Hit>, task: Task, items: seq<RawItem>, j: nat, year: string -> int)
    requires j < |items|
    ensures Fold(a + HitsOf(task, items[..j + 1]), year) == Step(Fold(a + HitsOf(task, items[..j]), year), Hit(task, items[j]), year)
  {
    HitsOfSnoc(task, items, j);
    assert a + HitsOf(task, items[..j + 1]) == (a + HitsOf(task, items[..j])) + [Hit(task, items[j])];
    FoldSnoc(a + HitsOf(task, items[..j]), Hit(task, items[j]), year);
  }

  /**
   * `items.forEach` over one fulfilled response: the map and its insertion
   * order after the walk are those of the walk over the earlier hits
   * followed by this response's hits.
   */
  method WalkItems(order: seq<string>, contentMap: map<string, Content>, task: Task, items: seq<RawItem>,
                   ghost done: seq<Hit>, year: string -> int)
    returns (order': seq<string>, contentMap': map<string, Content>)
    requires Accumulator(order, contentMap) == Fold(done, year)
    ensures Accumulator(order', contentMap') == Fold(done + HitsOf(task, items), year)
  {
    order', contentMap' := order, contentMap;
    var j := 0;
    assert done + HitsOf(task, items[..0]) == done;
    while j < |items|
      invariant 0 <= j <= |items|
      invariant Accumulator(order', contentMap') == Fold(done + HitsOf(task, items[..j]), year)
    {
      var item := items[j];
      var key := TypedId(task.mediaType, RawId(item));
      if key in contentMap' {
        var existing := contentMap'[key];
        if task.ott !in existing.ottPlatforms {
          contentMap' := contentMap'[key := existing.(ottPlatforms := existing.ottPlatforms + [task.ott])];
        }
      } else {
        var content := Create(Hit(task, item), year);
        order' := order' + [key];
        contentMap' := contentMap'[key := content];
      }
      HitsOfConcat(done, task, items, j, year);
      j := j + 1;
    }
    assert items[..j] == items;
  }

  /**
   * `results.forEach` over the settled responses, skipping the rejected
   * ones, then the map's values in insertion order, sorted by popularity.
   */
  method MergeResults(tasks: seq<Task>, results: seq<Option<seq<RawItem>>>, year: string -> int)
    returns (contents: seq<Content>)
    requires |results| == |tasks|
    ensures contents == Catalog(tasks, results, year)
  {
    var order: seq<string> := [];
    var contentMap: map<string, Content> := map[];
    var i := 0;
    assert AllHits(tasks, results[..0]) == [];
    while i < |results|
      invariant 0 <= i <= |results|
      invariant Accumulator(order, contentMap) == Fold(AllHits(tasks, results[..i]), year)
    {
      ghost var before := AllHits(tasks, results[..i]);
      AllHitsSnoc(tasks, results, i);
      if results[i].Some? {
        order, contentMap := WalkItems(order, contentMap, tasks[i], results[i].value, before, year);
        assert AllHits(tasks, results[..i + 1]) == before + HitsOf(tasks[i], results[i].value);
      }
      i := i + 1;
    }
    assert results[..i] == results;
    var allContents := Values(order, contentMap);
    contents := SortContents(allContents, ByPopularity);
  }

  // ---------- what the walk computes ----------

  /** The merge keys of the hits, in order. */
  function KeysOf(hits: seq<Hit>): seq<string> {
    if hits == [] then [] else KeysOf(hits[..|hits| - 1]) + [HitKey(hits[|hits| - 1])]
  }

  /** The platforms of the hits under key k, in order. */
  function OttsFor(hits: seq<Hit>, k: string): seq<OttPlatform> {
    if hits == [] then []
    else
      var h := hits[|hits| - 1];
      if HitKey(h) == k then OttsFor(hits[..|hits| - 1], k) + [h.task.ott]
      else OttsFor(hits[..|hits| - 1], k)
  }

  lemma {:induction false} KeysOfIndex(hits: seq<Hit>)
    ensures |KeysOf(hits)| == |hits|
    ensures forall i :: 0 <= i < |hits| ==> KeysOf(hits)[i] == HitKey(hits[i])
  {
    if hits != [] {
      KeysOfIndex(hits[..|hits| - 1]);
    }
  }

  /** The insertion order lists each key once, in order of first occurrence, and the map holds exactly those keys. */
  lemma {:induction false} FoldKeys(hits: seq<Hit>, year: string -> int)
    ensures Fold(hits, year).order == Distinct(KeysOf(hits))
    ensures forall k :: k in Fold(hits, year).records <==> k in KeysOf(hits)
  {
    if hits != [] {
      var init := hits[..|hits| - 1];
      var h := hits[|hits| - 1];
      FoldKeys(init, year);
      if HitKey(h) in KeysOf(init) {
        DistinctAppendSeen(KeysOf(init), HitKey(h));
      } else {
        DistinctAppendNew(KeysOf(init), HitKey(h));
      }
    }
  }

  lemma {:induction false} OttsForAbsent(hits: seq<Hit>, k: string)
    requires k !in KeysOf(hits)
    ensures OttsFor(hits, k) == []
  {
    if hits != [] {
      OttsForAbsent(hits[..|hits| - 1], k);
    }
  }

  /**
   * The record under a key lists the platforms of the tasks that returned
   * that key, each once, in order of first occurrence.
   */
  lemma {:induction false} FoldRecord(hits: seq<Hit>, year: string -> int, k: string)
    requires k in Fold(hits, year).records
    ensures Fold(hits, year).records[k].ottPlatforms == Distinct(OttsFor(hits, k))
  {
    if hits != [] {
      var init := hits[..|hits| - 1];
      if k in Fold(init, year).records {
        FoldRecord(init, year, k);
      }
      FoldRecordStep(hits, year, k);
    }
  }

  lemma FoldRecordStep(hits: seq<Hit>, year: string -> int, k: string)
    requires hits != []
    requires k in Fold(hits[..|hits| - 1], year).records ==>
               Fold(hits[..|hits| - 1], year).records[k].ottPlatforms == Distinct(OttsFor(hits[..|hits| - 1], k))
    requires k in Fold(hits, year).records
    ensures Fold(hits, year).records[k].ottPlatforms == Distinct(OttsFor(hits, k))
  {
    var init := hits[..|hits| - 1];
    var h := hits[|hits| - 1];
    var acc := Fold(init, year);
    assert Fold(hits, year) == Step(acc, h, year);
    if k == HitKey(h) {
      assert OttsFor(hits, k) == OttsFor(init, k) + [h.task.ott];
      if k in acc.records {
        StepKnownPlatforms(acc, h, year, OttsFor(init, k));
      } else {
        FoldKeys(init, year);
        OttsForAbsent(init, k);
        StepNewPlatforms(acc, h, year);
      }
    } else {
      StepRecord(acc, h, year, k);
    }
  }

  /** A hit for a known key adds its platform unless the record lists it already. */
  lemma StepKnownPlatforms(acc: Accumulator, h: Hit, year: string -> int, seen: seq<OttPlatform>)
    requires HitKey(h) in acc.records
    requires acc.records[HitKey(h)].ottPlatforms == Distinct(seen)
    ensures Step(acc, h, year).records[HitKey(h)].ottPlatforms == Distinct(seen + [h.task.ott])
  {
    StepRecord(acc, h, year, HitKey(h));
    StepPlatforms(seen, acc.records[HitKey(h)].ottPlatforms, h.task.ott);
  }

  /** A hit for a new key creates a record listing its platform alone. */
  lemma StepNewPlatforms(acc: Accumulator, h: Hit, year: string -> int)
    requires HitKey(h) !in acc.records
    ensures Step(acc, h, year).records[HitKey(h)].ottPlatforms == Distinct([] + [h.task.ott])
  {
    StepRecord(acc, h, year, HitKey(h));
    assert Create(h, year).ottPlatforms == [h.task.ott];
    StepPlatforms([], [], h.task.ott);
  }

  /** Adding a platform if absent keeps the list the set fill of the platforms seen. */
  lemma StepPlatforms(seen: seq<OttPlatform>, platforms: seq<OttPlatform>, p: OttPlatform)
    requires platforms == Distinct(seen)
    ensures (if p in platforms then platforms else platforms + [p]) == Distinct(seen + [p])
  {
    DistinctSpec(seen);
    if p in platforms {
      DistinctAppendSeen(seen, p);
    } else {
      DistinctAppendNew(seen, p);
    }
  }

  /**
   * The record under a key is the one its first hit created, with only the
   * platform list grown since.
   */
  lemma {:induction false} FoldFirstWriter(hits: seq<Hit>, year: string -> int, i: nat)
    requires i < |hits|
    requires HitKey(hits[i]) !in KeysOf(hits[..i])
    ensures HitKey(hits[i]) in Fold(hits, year).records
    ensures Fold(hits, year).records[HitKey(hits[i])]
            == Create(hits[i], year).(ottPlatforms := Fold(hits, year).records[HitKey(hits[i])].ottPlatforms)
    decreases |hits|, 1
  {
    if i == |hits| - 1 {
      FirstWriterLast(hits, year);
    } else {
      FirstWriterEarlier(hits, year, i);
    }
  }

  /** A hit before the last one: its record survives the last step. */
  lemma {:induction false} FirstWriterEarlier(hits: seq<Hit>, year: string -> int, i: nat)
    requires i < |hits| - 1
    requires HitKey(hits[i]) !in KeysOf(hits[..i])
    ensures HitKey(hits[i]) in Fold(hits, year).records
    ensures Fold(hits, year).records[HitKey(hits[i])]
            == Create(hits[i], year).(ottPlatforms := Fold(hits, year).records[HitKey(hits[i])].ottPlatforms)
    decreases |hits|, 0
  {
    var init := hits[..|hits| - 1];
    assert init[i] == hits[i];
    assert init[..i] == hits[..i];
    FoldFirstWriter(init, year, i);
    FirstWriterKept(hits, year, i);
  }

  /** A key that no earlier hit has is not among the earlier keys. */
  lemma FirstKeyAbsent(hits: seq<Hit>, i: nat)
    requires i < |hits|
    requires forall j :: 0 <= j < i ==> HitKey(hits[j]) != HitKey(hits[i])
    ensures HitKey(hits[i]) !in KeysOf(hits[..i])
  {
    KeysOfIndex(hits[..i]);
  }

  /** The last hit creates the record when no earlier hit had its key. */
  lemma FirstWriterLast(hits: seq<Hit>, year: string -> int)
    requires hits != []
    requires HitKey(hits[|hits| - 1]) !in KeysOf(hits[..|hits| - 1])
    ensures Fold(hits, year).records[HitKey(hits[|hits| - 1])] == Create(hits[|hits| - 1], year)
  {
    var init := hits[..|hits| - 1];
    FoldKeys(init, year);
    StepRecord(Fold(init, year), hits[|hits| - 1], year, HitKey(hits[|hits| - 1]));
  }

  /** A later hit changes at most the platforms of an existing record. */
  lemma FirstWriterKept(hits: seq<Hit>, year: string -> int, i: nat)
    requires i < |hits| - 1
    requires HitKey(hits[i]) in Fold(hits[..|hits| - 1], year).records
    requires Fold(hits[..|hits| - 1], year).records[HitKey(hits[i])]
             == Create(hits[i], year).(ottPlatforms := Fold(hits[..|hits| - 1], year).records[HitKey(hits[i])].ottPlatforms)
    ensures HitKey(hits[i]) in Fold(hits, year).records
    ensures Fold(hits, year).records[HitKey(hits[i])]
            == Create(hits[i], year).(ottPlatforms := Fold(hits, year).records[HitKey(hits[i])].ottPlatforms)
  {
    var init := hits[..|hits| - 1];
    StepRecord(Fold(init, year), hits[|hits| - 1], year, HitKey(hits[i]));
  }

  lemma {:induction false} ValuesSpec(order: seq<string>, records: map<string, Content>)
    requires forall k :: k in order ==> k in records
    ensures |Values(order, records)| == |order|
    ensures forall i :: 0 <= i < |order| ==> Values(order, records)[i] == records[order[i]]
  {
    if order != [] {
      ValuesSpec(order[..|order| - 1], records);
    }
  }

  lemma {:induction false} HitsOfIndex(task: Task, items: seq<RawItem>)
    ensures |HitsOf(task, items)| == |items|
    ensures forall j :: 0 <= j < |items| ==> HitsOf(task, items)[j] == Hit(task, items[j])
  {
    if items != [] {
      HitsOfIndex(task, items[..|items| - 1]);
    }
  }

  /**
   * The walk sees exactly the items of the fulfilled responses, each paired
   * with the task at its response's index.
   */
  lemma {:induction false} AllHitsSpec(tasks: seq<Task>, results: seq<Option<seq<RawItem>>>)
    ensures forall h :: h in AllHits(tasks, results) <==>
              exists i, j :: 0 <= i < |results| && i < |tasks| && results[i].Some?
                             && 0 <= j < |results[i].value| && h == Hit(tasks[i], results[i].value[j])
  {
    if results != [] {
      var n := |results| - 1;
      var init := results[..n];
      AllHitsSpec(tasks, init);
      var last := if n < |tasks| && results[n].Some? then HitsOf(tasks[n], results[n].value) else [];
      if n < |tasks| && results[n].Some? {
        HitsOfIndex(tasks[n], results[n].value);
      } else {
        assert AllHits(tasks, init) + last == AllHits(tasks, init);
      }
      assert AllHits(tasks, results) == AllHits(tasks, init) + last;
      forall h ensures h in AllHits(tasks, results) <==>
                 exists i, j :: 0 <= i < |results| && i < |tasks| && results[i].Some?
                                && 0 <= j < |results[i].value| && h == Hit(tasks[i], results[i].value[j])
      {
        if h in AllHits(tasks, init) {
          var i, j :| 0 <= i < |init| && i < |tasks| && init[i].Some?
                      && 0 <= j < |init[i].value| && h == Hit(tasks[i], init[i].value[j]);
          assert results[i] == init[i];
        } else if h in last {
          var j :| 0 <= j < |last| && last[j] == h;
          assert h == Hit(tasks[n], results[n].value[j]);
        }
        if exists i, j :: 0 <= i < |results| && i < |tasks| && results[i].Some?
                          && 0 <= j < |results[i].value| && h == Hit(tasks[i], results[i].value[j]) {
          var i, j :| 0 <= i < |results| && i < |tasks| && results[i].Some?
                      && 0 <= j < |results[i].value| && h == Hit(tasks[i], results[i].value[j]);
          if i < n {
            assert init[i] == results[i];
          } else {
            assert last[j] == h;
          }
        }
      }
    }
  }

  /** When every request was rejected nothing is published but the empty list. */
  lemma {:induction false} AllRejectedCatalog(tasks: seq<Task>, results: seq<Option<seq<RawItem>>>, year: string -> int)
    requires forall i :: 0 <= i < |results| ==> results[i].None?
    ensures AllHits(tasks, results) == []
    ensures Catalog(tasks, results, year) == []
  {
    if results != [] {
      var n := |results| - 1;
      AllRejectedCatalog(tasks, results[..n], year);
    }
  }

  /** Values of a map listed by an insertion order that holds exactly its keys. */
  lemma ValuesMembers(order: seq<string>, records: map<string, Content>)
    requires forall k :: k in order <==> k in records
    ensures |Values(order, records)| == |order|
    ensures forall c :: c in Values(order, records) <==> exists k :: k in records && c == records[k]
  {
    ValuesSpec(order, records);
    var vals := Values(order, records);
    forall c | exists k :: k in records && c == records[k] ensures c in vals {
      var k :| k in records && c == records[k];
      var i :| 0 <= i < |order| && order[i] == k;
      assert vals[i] == c;
    }
  }

  /** The merged values: one record per distinct key, in first-seen order. */
  lemma MergedValuesMembers(hits: seq<Hit>, year: string -> int)
    ensures |Values(Fold(hits, year).order, Fold(hits, year).records)| == |Distinct(KeysOf(hits))|
    ensures forall c :: c in Values(Fold(hits, year).order, Fold(hits, year).records) <==>
              exists k :: k in Fold(hits, year).records && c == Fold(hits, year).records[k]
  {
    var acc := Fold(hits, year);
    FoldKeys(hits, year);
    DistinctSpec(KeysOf(hits));
    ValuesMembers(acc.order, acc.records);
  }

  /** The merged values have pairwise distinct ids. */
  lemma MergedValuesIds(hits: seq<Hit>, year: string -> int)
    ensures forall i, j :: 0 <= i < j < |Values(Fold(hits, year).order, Fold(hits, year).records)| ==>
              Values(Fold(hits, year).order, Fold(hits, year).records)[i].id
              != Values(Fold(hits, year).order, Fold(hits, year).records)[j].id
  {
    var acc := Fold(hits, year);
    FoldKeys(hits, year);
    DistinctSpec(KeysOf(hits));
    ValuesSpec(acc.order, acc.records);
    var vals := Values(acc.order, acc.records);
    forall i, j | 0 <= i < j < |vals| ensures vals[i].id != vals[j].id {
      DistinctRecordIds(hits, year, acc.order[i], acc.order[j]);
    }
  }

  /** Records under different keys have different ids. */
  lemma DistinctRecordIds(hits: seq<Hit>, year: string -> int, k1: string, k2: string)
    requires k1 in Fold(hits, year).records && k2 in Fold(hits, year).records && k1 != k2
    ensures Fold(hits, year).records[k1].id != Fold(hits, year).records[k2].id
  {
    RecordKeyOf(hits, year, k1);
    RecordKeyOf(hits, year, k2);
  }

  /** The platforms under a key are exactly those of the tasks that returned it. */
  lemma {:induction false} OttsForSpec(hits: seq<Hit>, k: string)
    ensures forall p :: p in OttsFor(hits, k) <==> exists h :: h in hits && HitKey(h) == k && h.task.ott == p
  {
    if hits != [] {
      var init := hits[..|hits| - 1];
      var last := hits[|hits| - 1];
      OttsForSpec(init, k);
      assert hits == init + [last];
    }
  }

  /** The position of the first occurrence of k in s. */
  function FirstIndex(s: seq<string>, k: string): (i: nat)
    requires k in s
    ensures i < |s| && s[i] == k
    ensures forall j :: 0 <= j < i ==> s[j] != k
  {
    if s[0] == k then 0 else FirstIndex(s[1..], k) + 1
  }

  /** Sorting by popularity keeps the ids pairwise distinct. */
  lemma PermutedIds(a: seq<Content>, b: seq<Content>)
    requires multiset(a) == multiset(b)
    requires forall i, j :: 0 <= i < j < |a| ==> a[i].id != a[j].id
    ensures forall i, j :: 0 <= i < j < |b| ==> b[i].id != b[j].id
  {
    assert NoDup(a);
    NoDupPermutation(a, b);
    forall i, j | 0 <= i < j < |b| ensures b[i].id != b[j].id {
      assert b[i] in multiset(a) && b[j] in multiset(a);
      var p :| 0 <= p < |a| && a[p] == b[i];
      var q :| 0 <= q < |a| && a[q] == b[j];
    }
  }

  /**
   * The published list is non-increasing in popularity, holds one record per
   * distinct key of the fulfilled responses with pairwise distinct ids, and
   * keeps records of equal popularity in the order their keys were first seen.
   */
  lemma CatalogOrder(tasks: seq<Task>, results: seq<Option<seq<RawItem>>>, year: string -> int)
    ensures SortedDesc(Catalog(tasks, results, year), ByPopularity)
    ensures |Catalog(tasks, results, year)| == |Distinct(KeysOf(AllHits(tasks, results)))|
    ensures forall i, j :: 0 <= i < j < |Catalog(tasks, results, year)| ==>
              Catalog(tasks, results, year)[i].id != Catalog(tasks, results, year)[j].id
    ensures forall k :: WithKey(Catalog(tasks, results, year), ByPopularity, k)
                        == WithKey(Values(Fold(AllHits(tasks, results), year).order,
                                          Fold(AllHits(tasks, results), year).records), ByPopularity, k)
  {
    var hits := AllHits(tasks, results);
    var acc := Fold(hits, year);
    var vals := Values(acc.order, acc.records);
    MergedValuesMembers(hits, year);
    MergedValuesIds(hits, year);
    SortContentsSpec(vals, ByPopularity);
    PermutedIds(vals, SortContents(vals, ByPopularity));
  }

  /** The merge key a record's id reads back as. */
  function RecordKey(c: Content): string {
    var parsed := ParseContentId(c.id);
    if parsed.Some? then TypedId(parsed.value.0, parsed.value.1) else ""
  }

  /** A record's id reads back as the key it is stored under. */
  lemma RecordKeyOf(hits: seq<Hit>, year: string -> int, k: string)
    requires k in Fold(hits, year).records
    ensures k in KeysOf(hits)
    ensures RecordKey(Fold(hits, year).records[k]) == k
  {
    RecordFirstWriter(hits, year, k);
    var h := FirstHit(hits, k);
    CreateSpec(h, year);
    TypedIdRoundTrip(h.task.mediaType, RawId(h.item));
  }

  /** The record under a key lists, once each, the platforms of the tasks that returned the key. */
  lemma RecordPlatforms(hits: seq<Hit>, year: string -> int, k: string)
    requires k in Fold(hits, year).records
    ensures NoDup(Fold(hits, year).records[k].ottPlatforms)
    ensures forall p :: p in Fold(hits, year).records[k].ottPlatforms <==>
              exists h :: h in hits && HitKey(h) == k && h.task.ott == p
  {
    FoldRecord(hits, year, k);
    OttsForSpec(hits, k);
    DistinctSpec(OttsFor(hits, k));
  }

  /** The first hit under key k. */
  function FirstHit(hits: seq<Hit>, k: string): (h: Hit)
    requires k in KeysOf(hits)
    ensures h in hits && HitKey(h) == k
  {
    KeysOfIndex(hits);
    hits[FirstIndex(KeysOf(hits), k)]
  }

  /** The record under a key is what the key's first hit created, but for its platforms. */
  lemma RecordFirstWriter(hits: seq<Hit>, year: string -> int, k: string)
    requires k in Fold(hits, year).records
    ensures k in KeysOf(hits)
    ensures Fold(hits, year).records[k]
            == Create(FirstHit(hits, k), year).(ottPlatforms := Fold(hits, year).records[k].ottPlatforms)
  {
    FoldKeys(hits, year);
    KeysOfIndex(hits);
    var i := FirstIndex(KeysOf(hits), k);
    FirstKeyAbsent(hits, i);
    FoldFirstWriter(hits, year, i);
  }

  /** A merged value is the record stored under the key its id reads back as. */
  lemma MergedValueKey(hits: seq<Hit>, year: string -> int, c: Content)
    ensures c in Values(Fold(hits, year).order, Fold(hits, year).records) <==>
              RecordKey(c) in Fold(hits, year).records && c == Fold(hits, year).records[RecordKey(c)]
  {
    var acc := Fold(hits, year);
    MergedValuesMembers(hits, year);
    if c in Values(acc.order, acc.records) {
      var k :| k in acc.records && c == acc.records[k];
      RecordKeyOf(hits, year, k);
    }
  }

  /** The published records are exactly the merged records, each stored under the key its id reads back as. */
  lemma CatalogRecords(tasks: seq<Task>, results: seq<Option<seq<RawItem>>>, year: string -> int)
    ensures forall c :: c in Catalog(tasks, results, year) <==>
              RecordKey(c) in Fold(AllHits(tasks, results), year).records
              && c == Fold(AllHits(tasks, results), year).records[RecordKey(c)]
  {
    var hits := AllHits(tasks, results);
    var acc := Fold(hits, year);
    var vals := Values(acc.order, acc.records);
    SortContentsSpec(vals, ByPopularity);
    forall c ensures c in Catalog(tasks, results, year) <==> RecordKey(c) in acc.records && c == acc.records[RecordKey(c)] {
      MergedValueKey(hits, year, c);
      assert c in Catalog(tasks, results, year) <==> c in multiset(vals);
    }
  }

  /** Every fulfilled item is published: some record is stored under its key. */
  lemma CatalogCoverage(tasks: seq<Task>, results: seq<Option<seq<RawItem>>>, year: string -> int)
    ensures forall h :: h in AllHits(tasks, results) ==>
              exists c :: c in Catalog(tasks, results, year) && RecordKey(c) == HitKey(h)
  {
    var hits := AllHits(tasks, results);
    var acc := Fold(hits, year);
    CatalogRecords(tasks, results, year);
    FoldKeys(hits, year);
    KeysOfIndex(hits);
    forall h | h in hits ensures exists c :: c in Catalog(tasks, results, year) && RecordKey(c) == HitKey(h) {
      var a :| 0 <= a < |hits| && hits[a] == h;
      assert KeysOf(hits)[a] == HitKey(h);
      RecordKeyOf(hits, year, HitKey(h));
      var c := acc.records[HitKey(h)];
      assert c in Catalog(tasks, results, year);
    }
  }

  /**
   * Every published record comes from the fulfilled items: its platforms are
   * those of the tasks that returned its key, each once, and all its other
   * fields are those the key's first hit created.
   */
  lemma CatalogProvenance(tasks: seq<Task>, results: seq<Option<seq<RawItem>>>, year: string -> int)
    ensures forall c :: c in Catalog(tasks, results, year) ==>
              RecordKey(c) in KeysOf(AllHits(tasks, results))
              && NoDup(c.ottPlatforms)
              && (forall p :: p in c.ottPlatforms <==>
                    exists h :: h in AllHits(tasks, results) && HitKey(h) == RecordKey(c) && h.task.ott == p)
              && c == Create(FirstHit(AllHits(tasks, results), RecordKey(c)), year).(ottPlatforms := c.ottPlatforms)
  {
    var hits := AllHits(tasks, results);
    CatalogRecords(tasks, results, year);
    forall c | c in Catalog(tasks, results, year)
      ensures RecordKey(c) in KeysOf(hits)
      ensures NoDup(c.ottPlatforms)
      ensures forall p :: p in c.ottPlatforms <==> exists h :: h in hits && HitKey(h) == RecordKey(c) && h.task.ott == p
      ensures c == Create(FirstHit(hits, RecordKey(c)), year).(ottPlatforms := c.ottPlatforms)
    {
      RecordPlatforms(hits, year, RecordKey(c));
      RecordFirstWriter(hits, year, RecordKey(c));
    }
  }
}
