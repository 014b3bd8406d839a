/** Project manifests as the fetch service and the project service read them. */
module ProjectModel {
  import opened Seqs
  import opened NearTypes
  import opened Filters
  import opened QueryEntries

  /** A block filter, or a filter whose properties are strings. */
  datatype HandlerFilter = OnBlock(modulo: Option<int>, timestamp: string) | OnFields(fields: seq<Field>)

  datatype HandlerKind = Base(kind: Kind) | Named(name: string)

  /** `query` is what the plugin's own `dictionaryQuery` yields for this handler; None when it has none. */
  datatype Handler = Handler(kind: HandlerKind, filter: Option<HandlerFilter>, query: Option<Entry>)

  /** A plugin's handler processor; a single base filter is a one-element list. */
  datatype Processor = Processor(baseHandlerKind: Option<Kind>, baseFilter: seq<Option<HandlerFilter>>)

  /** `Custom(None)` when `getDsProcessor` throws; `Unknown` is neither a runtime nor a custom data source. */
  datatype DsKind = Runtime | Custom(plugin: Option<map<HandlerKind, Processor>>) | Unknown

  datatype DataSource = DataSource(kind: DsKind, startBlock: Option<int>, handlers: seq<Handler>)

  datatype Project = Project(dataSources: seq<DataSource>, dynamicDataSources: seq<DataSource>)

  function AllSources(p: Project): seq<DataSource> { p.dataSources + p.dynamicDataSources }

  /** `ds.startBlock <= height`; false when `startBlock` is undefined. */
  predicate Started(ds: DataSource, height: int) {
    ds.startBlock.Some? && ds.startBlock.value <= height
  }

  function StartedBy(height: int): DataSource -> bool { ds => Started(ds, height) }

  function GetAllDataSources(p: Project, blockHeight: int): (r: seq<DataSource>)
    ensures forall ds :: ds in r <==>
      (ds in p.dataSources || ds in p.dynamicDataSources) && ds.startBlock.Some? && ds.startBlock.value <= blockHeight
  {
    Filter(StartedBy(blockHeight), AllSources(p))
  }

  /** Static sources before dynamic ones, each list in its own order, every started source once per entry. */
  lemma {:induction false} AllDataSourcesExact(p: Project, blockHeight: int) returns (at: seq<nat>)
    ensures var all, r := p.dataSources + p.dynamicDataSources, GetAllDataSources(p, blockHeight);
      && |at| == |r| && Increasing(at)
      && (forall i :: 0 <= i < |at| ==> at[i] < |all| && all[at[i]] == r[i])
      && (forall k: nat :: k < |all| ==>
            (k in at <==> all[k].startBlock.Some? && all[k].startBlock.value <= blockHeight))
  {
    at := FilterPositions(StartedBy(blockHeight), AllSources(p));
  }

  function StartOf(ds: DataSource): int { ds.startBlock.GetOr(0) }

  function InsertByStart(ds: DataSource, s: seq<DataSource>): seq<DataSource> {
    if s == [] || StartOf(ds) <= StartOf(s[0]) then [ds] + s else [s[0]] + InsertByStart(ds, s[1..])
  }

  /** `sort((a, b) => a.startBlock - b.startBlock)`, a stable sort. */
  function SortByStart(s: seq<DataSource>): seq<DataSource> {
    if s == [] then [] else InsertByStart(s[0], SortByStart(s[1..]))
  }

  /** The data sources the dictionary compiler considers. */
  function FilteredDs(p: Project, startBlock: int): seq<DataSource> {
    SortByStart(Filter(StartedBy(startBlock), AllSources(p)))
  }

  predicate SortedByStart(s: seq<DataSource>) {
    forall i, j :: 0 <= i < j < |s| ==> StartOf(s[i]) <= StartOf(s[j])
  }

  function StartsAt(height: int): DataSource -> bool { ds => StartOf(ds) == height }

  lemma {:induction false} InsertKeeps(ds: DataSource, s: seq<DataSource>)
    ensures multiset(InsertByStart(ds, s)) == multiset(s) + multiset{ds}
  {
    if s != [] && StartOf(ds) > StartOf(s[0]) {
      InsertKeeps(ds, s[1..]);
      assert s == [s[0]] + s[1..];
    }
  }

  lemma {:induction false} SortedPrepend(ds: DataSource, s: seq<DataSource>)
    requires SortedByStart(s) && forall d :: d in multiset(s) ==> StartOf(ds) <= StartOf(d)
    ensures SortedByStart([ds] + s)
  {
    forall i | 0 <= i < |s| ensures StartOf(ds) <= StartOf(s[i]) {
      assert s[i] in multiset(s);
    }
  }

  lemma {:induction false} InsertIsSorted(ds: DataSource, s: seq<DataSource>)
    requires SortedByStart(s)
    ensures SortedByStart(InsertByStart(ds, s))
  {
    if s == [] || StartOf(ds) <= StartOf(s[0]) {
      SortedPrepend(ds, s);
    } else {
      InsertIsSorted(ds, s[1..]);
      InsertKeeps(ds, s[1..]);
      SortedPrepend(s[0], InsertByStart(ds, s[1..]));
    }
  }

  lemma {:induction false} InsertIsStable(ds: DataSource, s: seq<DataSource>, height: int)
    ensures Filter(StartsAt(height), InsertByStart(ds, s)) == Filter(StartsAt(height), [ds] + s)
  {
    if s != [] && StartOf(ds) > StartOf(s[0]) {
      var p, rest := StartsAt(height), s[1..];
      InsertIsStable(ds, rest, height);
      FilterPrepend(p, s[0], InsertByStart(ds, rest));
      FilterPrepend(p, s[0], [ds] + rest);
      if p(ds) {
        FilterSwap(p, s[0], ds, rest);
      } else {
        FilterSwap(p, ds, s[0], rest);
      }
      assert s == [s[0]] + rest;
    }
  }

  /** The sort loses nothing, orders by start block, and keeps the order of sources with one start block. */
  lemma {:induction false} SortByStartLaws(s: seq<DataSource>, height: int)
    ensures multiset(SortByStart(s)) == multiset(s)
    ensures SortedByStart(SortByStart(s))
    ensures Filter(StartsAt(height), SortByStart(s)) == Filter(StartsAt(height), s)
  {
    if s != [] {
      var p, rest := StartsAt(height), SortByStart(s[1..]);
      SortByStartLaws(s[1..], height);
      InsertKeeps(s[0], rest);
      InsertIsSorted(s[0], rest);
      InsertIsStable(s[0], rest, height);
      FilterPrepend(p, s[0], s[1..]);
      FilterPrepend(p, s[0], rest);
      assert s == [s[0]] + s[1..];
    }
  }

  /** The compiler considers exactly the sources that have started. */
  lemma {:induction false} FilteredDsMember(p: Project, startBlock: int, ds: DataSource)
    ensures ds in FilteredDs(p, startBlock) <==> ds in AllSources(p) && Started(ds, startBlock)
  {
    var active := Filter(StartedBy(startBlock), AllSources(p));
    SortByStartLaws(active, startBlock);
    SameMultisetMember(active, FilteredDs(p, startBlock), ds);
  }

  function DeclaredAt(height: int): DataSource -> bool { (ds: DataSource) => ds.startBlock == Some(height) }

  /**
   * What the compiler considers: sources that have started, in ascending order of their start blocks, and those
   * with one start block in the order of the manifest, static ones first.
   */
  lemma {:induction false} FilteredDsExact(p: Project, startBlock: int, height: int)
    ensures var r := FilteredDs(p, startBlock);
      && (forall i :: 0 <= i < |r| ==> r[i].startBlock.Some? && r[i].startBlock.value <= startBlock)
      && (forall i, j :: 0 <= i < j < |r| ==> r[i].startBlock.value <= r[j].startBlock.value)
      && Filter(DeclaredAt(height), r) ==
           if height <= startBlock then Filter(DeclaredAt(height), p.dataSources + p.dynamicDataSources) else []
  {
    var all, r := AllSources(p), FilteredDs(p, startBlock);
    var active := Filter(StartedBy(startBlock), all);
    SortByStartLaws(active, height);
    forall i | 0 <= i < |r| ensures Started(r[i], startBlock) {
      SameMultisetMember(active, r, r[i]);
    }
    forall i, j | 0 <= i < j < |r| ensures r[i].startBlock.value <= r[j].startBlock.value {
      assert StartOf(r[i]) <= StartOf(r[j]);
    }
    FilterAgree(DeclaredAt(height), StartsAt(height), r);
    FilterAgree(DeclaredAt(height), StartsAt(height), active);
    if height <= startBlock {
      FilterFilter(StartedBy(startBlock), DeclaredAt(height), DeclaredAt(height), all);
    } else {
      FilterNone(DeclaredAt(height), active);
    }
  }

  /**
   * When no data source starts in (startBlock, height], the sources that run at `height` are, up to order,
   * those the compiler considered for `startBlock`.
   */
  lemma {:induction false} ActiveSourcesAgree(p: Project, startBlock: int, height: int)
    requires startBlock <= height
    requires forall ds :: ds in AllSources(p) && Started(ds, height) ==> Started(ds, startBlock)
    ensures multiset(GetAllDataSources(p, height)) == multiset(FilteredDs(p, startBlock))
  {
    SortByStartLaws(Filter(StartedBy(startBlock), AllSources(p)), height);
    FilterAgree(StartedBy(height), StartedBy(startBlock), AllSources(p));
  }
}
