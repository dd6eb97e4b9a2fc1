/**
 * The catalogue loader: the per-platform worklist of discover requests, the
 * merge of the settled responses into one record per title, the final
 * popularity sort, and the loader's published state.
 */
module CatalogFetch {
  import opened Wrappers
  import opened Seqs
  import opened Strings
  import opened Types
  import opened Tmdb
  import opened Transformers
  import opened ContentSort

  // ---------- worklist ----------

  /** `OTT_PROVIDER_IDS`: each platform's upstream provider id. */
  function ProviderIdOf(ott: OttPlatform): int {
    match ott
    case Netflix => 8
    case Disney => 337
    case Tving => 1796
    case Wavve => 356
    case Coupang => 2039
    case Watcha => 97
  }

  /** `Object.entries(OTT_PROVIDER_IDS)`: the platforms in declaration order with their ids. */
  const OttProviderEntries: seq<(OttPlatform, int)> :=
    [(Netflix, 8), (Disney, 337), (Tving, 1796), (Wavve, 356), (Coupang, 2039), (Watcha, 97)]

  /** `pagesMap`: three pages for the large platforms, two for the others. */
  function PagesFor(ott: OttPlatform): nat {
    match ott
    case Netflix => 3
    case Disney => 3
    case Tving => 3
    case Wavve => 2
    case Coupang => 2
    case Watcha => 2
  }

  /** One discover request to make. */
  datatype Task = Task(ott: OttPlatform, providerId: int, mediaType: MediaType, page: int)

  /** Pages 1..pages of one platform, a movie task then a TV task per page. */
  function PageTasks(ott: OttPlatform, providerId: int, pages: nat): seq<Task> {
    if pages == 0 then []
    else PageTasks(ott, providerId, pages - 1)
         + [Task(ott, providerId, Movie, pages), Task(ott, providerId, Tv, pages)]
  }

  /** The tasks of the given entries, platform after platform. */
  function TasksOf(entries: seq<(OttPlatform, int)>): seq<Task> {
    if entries == [] then []
    else
      var last := entries[|entries| - 1];
      TasksOf(entries[..|entries| - 1]) + PageTasks(last.0, last.1, PagesFor(last.0))
  }

  /** `fetchTasks`. */
  function Worklist(): seq<Task> {
    TasksOf(OttProviderEntries)
  }

  /** The nested loops that fill `fetchTasks`. */
  method BuildWorklist() returns (tasks: seq<Task>)
    ensures tasks == Worklist()
  {
    tasks := [];
    var e := 0;
    while e < |OttProviderEntries|
      invariant 0 <= e <= |OttProviderEntries|
      invariant tasks == TasksOf(OttProviderEntries[..e])
    {
      var (ott, providerId) := OttProviderEntries[e];
      var pages := PagesFor(ott);
      ghost var before := tasks;
      var page := 1;
      while page <= pages
        invariant 1 <= page <= pages + 1
        invariant tasks == before + PageTasks(ott, providerId, page - 1)
      {
        tasks := tasks + [Task(ott, providerId, Movie, page)];
        tasks := tasks + [Task(ott, providerId, Tv, page)];
        page := page + 1;
      }
      assert OttProviderEntries[..e + 1][..e] == OttProviderEntries[..e];
      e := e + 1;
    }
    assert OttProviderEntries[..e] == OttProviderEntries;
  }

  /** The kind asked for at position i of a platform's tasks. */
  function KindAt(i: int): MediaType {
    if i % 2 == 0 then Movie else Tv
  }

  /**
   * One platform's tasks in closed form: position i asks for page i/2 + 1,
   * movies at even positions and TV at odd ones.
   */
  lemma {:induction false} PageTasksIndex(ott: OttPlatform, providerId: int, pages: nat)
    ensures |PageTasks(ott, providerId, pages)| == 2 * pages
    ensures forall i :: 0 <= i < 2 * pages ==>
              PageTasks(ott, providerId, pages)[i] == Task(ott, providerId, KindAt(i), i / 2 + 1)
  {
    if pages > 0 {
      PageTasksIndex(ott, providerId, pages - 1);
    }
  }

  /** One platform's tasks: each of its pages once per kind, and nothing else. */
  lemma PageTasksSpec(ott: OttPlatform, providerId: int, pages: nat)
    ensures forall t :: t in PageTasks(ott, providerId, pages) <==>
              t.ott == ott && t.providerId == providerId && 1 <= t.page <= pages
    ensures NoDup(PageTasks(ott, providerId, pages))
  {
    PageTasksIndex(ott, providerId, pages);
    var r := PageTasks(ott, providerId, pages);
    forall t: Task | t.ott == ott && t.providerId == providerId && 1 <= t.page <= pages ensures t in r {
      var i := 2 * (t.page - 1) + (if t.mediaType == Movie then 0 else 1);
      assert r[i] == t;
    }
    forall i, j | 0 <= i < j < |r| ensures r[i] != r[j] {
      if i / 2 == j / 2 {
        assert KindAt(i) != KindAt(j);
      }
    }
  }

  /** The platforms' tasks, entry by entry. */
  lemma {:induction false} TasksOfSpec(entries: seq<(OttPlatform, int)>)
    ensures forall t :: t in TasksOf(entries) <==>
              (t.ott, t.providerId) in entries && 1 <= t.page <= PagesFor(t.ott)
  {
    if entries != [] {
      var init := entries[..|entries| - 1];
      var last := entries[|entries| - 1];
      TasksOfSpec(init);
      PageTasksSpec(last.0, last.1, PagesFor(last.0));
      assert entries == init + [last];
    }
  }

  /** The table of provider ids and the entry list agree with each other. */
  lemma OttProviderEntriesTable()
    ensures forall ott, id :: (ott, id) in OttProviderEntries <==> id == ProviderIdOf(ott)
  {
    forall ott, id ensures (ott, id) in OttProviderEntries <==> id == ProviderIdOf(ott) {
      match ott
      case Netflix => assert OttProviderEntries[0] == (ott, ProviderIdOf(ott));
      case Disney => assert OttProviderEntries[1] == (ott, ProviderIdOf(ott));
      case Tving => assert OttProviderEntries[2] == (ott, ProviderIdOf(ott));
      case Wavve => assert OttProviderEntries[3] == (ott, ProviderIdOf(ott));
      case Coupang => assert OttProviderEntries[4] == (ott, ProviderIdOf(ott));
      case Watcha => assert OttProviderEntries[5] == (ott, ProviderIdOf(ott));
    }
  }

  /**
   * The worklist asks, for every platform and every page 1..pagesMap[p],
   * for movies and for TV with the platform's own provider id, and for
   * nothing else.
   */
  lemma WorklistMembers()
    ensures forall t :: t in Worklist() <==> t.providerId == ProviderIdOf(t.ott) && 1 <= t.page <= PagesFor(t.ott)
  {
    TasksOfSpec(OttProviderEntries);
    OttProviderEntriesTable();
  }

  /** The distinct-platform entries give a worklist without repeated tasks. */
  lemma {:induction false} TasksOfNoDup(entries: seq<(OttPlatform, int)>)
    requires forall i, j :: 0 <= i < j < |entries| ==> entries[i].0 != entries[j].0
    ensures NoDup(TasksOf(entries))
  {
    if entries != [] {
      var init := entries[..|entries| - 1];
      var last := entries[|entries| - 1];
      TasksOfNoDup(init);
      TasksOfSpec(init);
      PageTasksSpec(last.0, last.1, PagesFor(last.0));
      var a := TasksOf(init);
      var b := PageTasks(last.0, last.1, PagesFor(last.0));
      forall i, j | 0 <= i < j < |a + b| ensures (a + b)[i] != (a + b)[j] {
        if i < |a| && j >= |a| {
          var t: Task := (a + b)[i];
          assert t in a && (a + b)[j] in b;
          var k :| 0 <= k < |init| && init[k] == (t.ott, t.providerId);
          assert entries[k] == init[k];
        }
      }
    }
  }

  /** The number of pages over the given entries. */
  function TotalPages(entries: seq<(OttPlatform, int)>): nat {
    if entries == [] then 0
    else TotalPages(entries[..|entries| - 1]) + PagesFor(entries[|entries| - 1].0)
  }

  lemma {:induction false} TasksOfLength(entries: seq<(OttPlatform, int)>)
    ensures |TasksOf(entries)| == 2 * TotalPages(entries)
  {
    if entries != [] {
      var last := entries[|entries| - 1];
      TasksOfLength(entries[..|entries| - 1]);
      PageTasksIndex(last.0, last.1, PagesFor(last.0));
    }
  }

  /** 2 * (3 + 3 + 3 + 2 + 2 + 2) tasks, none repeated. */
  lemma WorklistShape()
    ensures |Worklist()| == 30
    ensures NoDup(Worklist())
  {
    TasksOfLength(OttProviderEntries);
    var e := OttProviderEntries;
    assert e[..1][..0] == [];
    assert TotalPages(e[..1]) == 3;
    assert e[..2][..1] == e[..1];
    assert TotalPages(e[..2]) == 6;
    assert e[..3][..2] == e[..2];
    assert TotalPages(e[..3]) == 9;
    assert e[..4][..3] == e[..3];
    assert TotalPages(e[..4]) == 11;
    assert e[..5][..4] == e[..4];
    assert TotalPages(e[..5]) == 13;
    assert e[..5] == e[..|e| - 1];
    TasksOfNoDup(OttProviderEntries);
  }

  /**
   * `OTT_PROVIDER_IDS` is the inverse of `PROVIDER_ID_MAP`: each platform's
   * id is a table key naming that platform, and every table key is the id
   * of the platform it names.
   */
  lemma ProviderIdsInverse()
    ensures forall p :: ProviderIdOf(p) in ProviderIdMap && ProviderIdMap[ProviderIdOf(p)] == OttKey(p)
    ensures forall id :: id in ProviderIdMap ==>
              ParseOtt(ProviderIdMap[id]).Some? && ProviderIdOf(ParseOtt(ProviderIdMap[id]).value) == id
  {
    ProviderIdMapTable();
    forall id | id in ProviderIdMap
      ensures ParseOtt(ProviderIdMap[id]).Some? && ProviderIdOf(ParseOtt(ProviderIdMap[id]).value) == id
    {
      assert id in {8, 337, 97, 356, 1796, 2039};
    }
  }

  /**
   * Every task's request is a discover request of its own kind and page,
   * restricted to its platform's id alone, which is one of the ids of the
   * all-platform default.
   */
  lemma WorklistRequests()
    ensures forall t :: t in Worklist() ==>
              var r := Discover(t.mediaType, t.page, Some(IntToString(t.providerId)));
              r.path == "/discover/" + MediaKey(t.mediaType)
              && r.params["page"] == IntToString(t.page)
              && r.params["with_watch_providers"] == IntToString(t.providerId)
              && IntToString(t.providerId) in KrProviderIdParts
  {
    WorklistMembers();
    ProviderIdsInverse();
    KrProviderIdsAreTableKeys();
    forall t | t in Worklist()
      ensures IntToString(t.providerId) != ""
    {
      assert t.providerId >= 0 || t.providerId < 0;
    }
  }
}
