/** The worker's block cache as an event machine, and its refinement of the non-worker dispatcher. */
module Worker {
  import opened Seqs
  import opened BatchFetch

  /** Steps of the worker: a fetch task up to its await, its two ways to resume, and processing a height. */
  datatype Event = Start(h: int) | Store(h: int) | Fail(h: int) | Process(h: int)

  /** `indexed` lists the calls of `indexBlock`: the height passed to `getAllDataSources`, and the block. */
  datatype State<B> = State(fetched: map<int, Option<B>>, inFlight: multiset<int>, indexed: seq<(int, B)>)

  datatype Processed<B> = Indexed(block: B) | Unavailable | NotFetched

  function InitialState<B>(): State<B> { State(map[], multiset{}, []) }

  /** `this.fetchedBlocks[height]` is truthy: the fetch completes without asking the node. */
  predicate Hit<B>(s: State<B>, h: int) { h in s.fetched && s.fetched[h].Some? }

  /** How `processBlock` ends; NotFetched is the error it throws on. */
  function Outcome<B>(s: State<B>, h: int): Processed<B> {
    if h !in s.fetched then NotFetched
    else if s.fetched[h].None? then Unavailable
    else Indexed(s.fetched[h].value)
  }

  predicate Enabled<B>(s: State<B>, e: Event) {
    e.Store? || e.Fail? ==> e.h in s.inFlight
  }

  function Apply<B>(chain: int -> Option<B>, s: State<B>, e: Event): State<B>
    requires Enabled(s, e)
  {
    match e
    case Start(h) => if Hit(s, h) then s else s.(inFlight := s.inFlight + multiset{h})
    case Store(h) => s.(fetched := s.fetched[h := chain(h)], inFlight := s.inFlight - multiset{h})
    case Fail(h) => s.(inFlight := s.inFlight - multiset{h})
    case Process(h) =>
      var o := Outcome(s, h);
      if o.Indexed? then s.(fetched := s.fetched - {h}, indexed := s.indexed + [(h, o.block)]) else s
  }

  predicate Valid<B>(chain: int -> Option<B>, run: seq<Event>)
    decreases |run|, 0
  {
    run == [] ||
    (Valid(chain, run[..|run| - 1]) && Enabled(Run(chain, run[..|run| - 1]), run[|run| - 1]))
  }

  function Run<B>(chain: int -> Option<B>, run: seq<Event>): State<B>
    requires Valid(chain, run)
    decreases |run|, 1
  {
    if run == [] then InitialState() else Apply(chain, Run(chain, run[..|run| - 1]), run[|run| - 1])
  }

  /** Some completed store of `h` has no later process of `h`; processing an unavailable height consumes nothing. */
  predicate Ready<B>(chain: int -> Option<B>, run: seq<Event>, h: int) {
    exists i :: 0 <= i < |run| && run[i] == Store(h) && (chain(h).Some? ==> Process(h) !in run[i + 1..])
  }

  lemma {:induction false} ReadyStep<B>(chain: int -> Option<B>, run: seq<Event>, e: Event, h: int)
    ensures Ready(chain, run + [e], h) <==>
      e == Store(h) || (Ready(chain, run, h) && !(chain(h).Some? && e == Process(h)))
  {
    var next := run + [e];
    if e == Store(h) {
      assert next[|run|] == Store(h) && next[|run| + 1..] == [];
    } else if Ready(chain, run, h) {
      var i :| 0 <= i < |run| && run[i] == Store(h) && (chain(h).Some? ==> Process(h) !in run[i + 1..]);
      assert next[i] == Store(h) && next[i + 1..] == run[i + 1..] + [e];
    }
    if e != Store(h) && Ready(chain, next, h) {
      var i :| 0 <= i < |next| && next[i] == Store(h) && (chain(h).Some? ==> Process(h) !in next[i + 1..]);
      assert run[i] == Store(h) && next[i + 1..] == run[i + 1..] + [e];
      assert e in next[i + 1..];
    }
  }

  /**
   * In every reachable state the cache holds exactly the heights that are ready, each with what the chain has
   * there: null only when unavailable, otherwise the block of the height.
   */
  lemma {:induction false} CacheExact<B>(chain: int -> Option<B>, run: seq<Event>, h: int)
    requires Valid(chain, run)
    ensures h in Run(chain, run).fetched <==> Ready(chain, run, h)
    ensures h in Run(chain, run).fetched ==> Run(chain, run).fetched[h] == chain(h)
  {
    if run != [] {
      var pre, e := run[..|run| - 1], run[|run| - 1];
      assert run == pre + [e];
      CacheExact(chain, pre, h);
      ReadyStep(chain, pre, e, h);
    }
  }

  /** `processBlock` throws exactly when no completed store of the height is left to process. */
  lemma {:induction false} ThrowsExact<B>(chain: int -> Option<B>, run: seq<Event>, h: int)
    requires Valid(chain, run)
    ensures Outcome(Run(chain, run), h) ==
      if !Ready(chain, run, h) then NotFetched else if chain(h).None? then Unavailable else Indexed(chain(h).value)
  {
    CacheExact(chain, run, h);
  }

  /** The processed heights whose processing did not throw, in order. */
  function Completed<B>(chain: int -> Option<B>, run: seq<Event>): seq<int>
    requires Valid(chain, run)
  {
    if run == [] then []
    else
      var pre, e := run[..|run| - 1], run[|run| - 1];
      Completed(chain, pre) + if e.Process? && !Outcome(Run(chain, pre), e.h).NotFetched? then [e.h] else []
  }

  /** The non-worker dispatcher on these heights: fetch as a batch, drop nulls, index each block at its own height. */
  function DispatcherIndexes<B>(chain: int -> Option<B>, heightOf: B -> int, heights: seq<int>): seq<(int, B)> {
    Map(AtHeight(heightOf), NonNull(Map(chain, heights)))
  }

  function AtHeight<B>(heightOf: B -> int): B -> (int, B) { block => (heightOf(block), block) }

  ghost predicate OwnHeights<B>(chain: int -> Option<B>, heightOf: B -> int) {
    forall h :: chain(h).Some? ==> heightOf(chain(h).value) == h
  }

  lemma {:induction false} DispatcherStep<B>(chain: int -> Option<B>, heightOf: B -> int, heights: seq<int>, h: int)
    requires OwnHeights(chain, heightOf)
    ensures DispatcherIndexes(chain, heightOf, heights + [h])
         == DispatcherIndexes(chain, heightOf, heights) + if chain(h).Some? then [(h, chain(h).value)] else []
  {
    assert Map(chain, heights + [h]) == Map(chain, heights) + [chain(h)];
    NonNullConcat(Map(chain, heights), chain(h));
    var done := NonNull(Map(chain, heights));
    if chain(h).Some? {
      assert Map(AtHeight(heightOf), done + [chain(h).value]) == Map(AtHeight(heightOf), done) + [(h, chain(h).value)];
    } else {
      assert done + [] == done;
    }
  }

  /**
   * Worker refinement, over every interleaving of fetch steps, failures and process steps: the calls of
   * `indexBlock` are those the dispatcher makes for the heights whose processing did not throw.
   */
  lemma {:induction false} WorkerRefines<B>(chain: int -> Option<B>, heightOf: B -> int, run: seq<Event>)
    requires Valid(chain, run) && OwnHeights(chain, heightOf)
    ensures Run(chain, run).indexed == DispatcherIndexes(chain, heightOf, Completed(chain, run))
  {
    if run != [] {
      var pre, e := run[..|run| - 1], run[|run| - 1];
      WorkerRefines(chain, heightOf, pre);
      assert Completed(chain, pre) + [] == Completed(chain, pre);
      if e.Process? {
        CacheExact(chain, pre, e.h);
        DispatcherStep(chain, heightOf, Completed(chain, pre), e.h);
      }
    }
  }

  /** All processed heights, in order. */
  function ProcessedHeights(run: seq<Event>): seq<int> {
    if run == [] then []
    else ProcessedHeights(run[..|run| - 1]) + if run[|run| - 1].Process? then [run[|run| - 1].h] else []
  }

  /** At step `j` a fetch of `h` completes: a store, or a start that finds the block cached. */
  predicate FetchCompletes<B>(chain: int -> Option<B>, run: seq<Event>, j: nat, h: int)
    requires j < |run| && Valid(chain, run[..j])
  {
    run[j] == Store(h) || (run[j] == Start(h) && Hit(Run(chain, run[..j]), h))
  }

  /** Each process of a height follows a completed fetch made since its last process. */
  predicate Disciplined<B>(chain: int -> Option<B>, run: seq<Event>)
    requires Valid(chain, run)
  {
    run == [] ||
    (Disciplined(chain, run[..|run| - 1]) &&
     (run[|run| - 1].Process? ==> FetchedSince(chain, run[..|run| - 1], run[|run| - 1].h)))
  }

  predicate FetchedSince<B>(chain: int -> Option<B>, run: seq<Event>, h: int)
    requires Valid(chain, run)
  {
    run != [] && run[|run| - 1] != Process(h) &&
    (FetchCompletes(chain, run, |run| - 1, h) || FetchedSince(chain, run[..|run| - 1], h))
  }

  lemma {:induction false} FetchedSinceReady<B>(chain: int -> Option<B>, run: seq<Event>, h: int)
    requires Valid(chain, run) && FetchedSince(chain, run, h)
    ensures Ready(chain, run, h)
  {
    var pre, e := run[..|run| - 1], run[|run| - 1];
    assert run == pre + [e];
    ReadyStep(chain, pre, e, h);
    if FetchedSince(chain, pre, h) {
      FetchedSinceReady(chain, pre, h);
    } else {
      CacheExact(chain, pre, h);
    }
  }

  /** Under the dispatcher's discipline no processing throws, so every processed height is indexed or unavailable. */
  lemma {:induction false} DisciplinedRefines<B>(chain: int -> Option<B>, heightOf: B -> int, run: seq<Event>)
    requires Valid(chain, run) && OwnHeights(chain, heightOf) && Disciplined(chain, run)
    ensures Completed(chain, run) == ProcessedHeights(run)
    ensures Run(chain, run).indexed == DispatcherIndexes(chain, heightOf, ProcessedHeights(run))
  {
    WorkerRefines(chain, heightOf, run);
    if run != [] {
      var pre, e := run[..|run| - 1], run[|run| - 1];
      DisciplinedRefines(chain, heightOf, pre);
      if e.Process? {
        FetchedSinceReady(chain, pre, e.h);
        ThrowsExact(chain, pre, e.h);
      }
    }
  }

  // Conservation.

  function Stores(run: seq<Event>, h: int): nat {
    if run == [] then 0 else Stores(run[..|run| - 1], h) + if run[|run| - 1] == Store(h) then 1 else 0
  }

  /** Stores of `h` that found an entry already in the cache. */
  function Overwrites<B>(chain: int -> Option<B>, run: seq<Event>, h: int): nat
    requires Valid(chain, run)
  {
    if run == [] then 0
    else
      var pre := run[..|run| - 1];
      Overwrites(chain, pre, h) + if run[|run| - 1] == Store(h) && h in Run(chain, pre).fetched then 1 else 0
  }

  /** Processes of `h` that indexed its block. */
  function Successes<B>(chain: int -> Option<B>, run: seq<Event>, h: int): nat
    requires Valid(chain, run)
  {
    if run == [] then 0
    else
      var pre := run[..|run| - 1];
      Successes(chain, pre, h) + if run[|run| - 1] == Process(h) && Outcome(Run(chain, pre), h).Indexed? then 1 else 0
  }

  /**
   * Cache conservation: every completed store of an available height is still live, was indexed, or replaced
   * an entry. So successes plus the live entry never exceed the stores.
   */
  lemma {:induction false} Conservation<B>(chain: int -> Option<B>, run: seq<Event>, h: int)
    requires Valid(chain, run) && chain(h).Some?
    ensures Stores(run, h) == Successes(chain, run, h) + (if h in Run(chain, run).fetched then 1 else 0)
                              + Overwrites(chain, run, h)
  {
    if run != [] {
      var pre := run[..|run| - 1];
      Conservation(chain, pre, h);
      CacheExact(chain, pre, h);
    }
  }

  // Fetches in flight.

  /** From the run alone: the cache holds an available block of `h`. An unavailable height is never a hit. */
  predicate Cached<B>(chain: int -> Option<B>, run: seq<Event>, h: int) {
    chain(h).Some? && Ready(chain, run, h)
  }

  lemma {:induction false} HitExact<B>(chain: int -> Option<B>, run: seq<Event>, h: int)
    requires Valid(chain, run)
    ensures Hit(Run(chain, run), h) <==> Cached(chain, run, h)
  {
    CacheExact(chain, run, h);
  }

  /** Starts of `h` that found no available block and so asked the node. */
  function Asked<B>(chain: int -> Option<B>, run: seq<Event>, h: int): nat {
    if run == [] then 0
    else
      var pre := run[..|run| - 1];
      Asked(chain, pre, h) + if run[|run| - 1] == Start(h) && !Cached(chain, pre, h) then 1 else 0
  }

  function Failures(run: seq<Event>, h: int): nat {
    if run == [] then 0 else Failures(run[..|run| - 1], h) + if run[|run| - 1] == Fail(h) then 1 else 0
  }

  /** Every question to the node has been answered, has failed, or is still waiting. */
  lemma {:induction false} InFlightExact<B>(chain: int -> Option<B>, run: seq<Event>, h: int)
    requires Valid(chain, run)
    ensures Asked(chain, run, h) == Stores(run, h) + Failures(run, h) + Run(chain, run).inFlight[h]
  {
    if run != [] {
      var pre := run[..|run| - 1];
      InFlightExact(chain, pre, h);
      HitExact(chain, pre, h);
    }
  }

  /** An answer or a failure belongs to a question still waiting. */
  predicate Awaited<B>(chain: int -> Option<B>, before: seq<Event>, e: Event) {
    e.Store? || e.Fail? ==> Asked(chain, before, e.h) > Stores(before, e.h) + Failures(before, e.h)
  }

  /** The runs are exactly the interleavings in which no question is answered before it is asked, or twice. */
  lemma {:induction false} RunsExact<B>(chain: int -> Option<B>, run: seq<Event>)
    ensures Valid(chain, run) <==> forall j :: 0 <= j < |run| ==> Awaited(chain, run[..j], run[j])
  {
    if run != [] {
      var pre, e := run[..|run| - 1], run[|run| - 1];
      RunsExact(chain, pre);
      assert run == pre + [e] && run[..|pre|] == pre;
      forall j | 0 <= j < |pre| ensures run[..j] == pre[..j] && run[j] == pre[j] {
      }
      if Valid(chain, pre) {
        InFlightExact(chain, pre, e.h);
      }
    }
  }

  function StoredHeights(run: seq<Event>): set<int> { set e | e in run && e.Store? :: e.h }

  function Pending<B>(chain: int -> Option<B>, run: seq<Event>): set<int> {
    set h | h in StoredHeights(run) && chain(h).Some? && Ready(chain, run, h)
  }

  function UnavailableStored<B>(chain: int -> Option<B>, run: seq<Event>): set<int> {
    set h | h in StoredHeights(run) && chain(h).None?
  }

  /** `numFetchedBlocks`: pending available heights plus all unavailable heights ever fetched. */
  lemma {:induction false} NumFetchedBlocksExact<B>(chain: int -> Option<B>, run: seq<Event>)
    requires Valid(chain, run)
    ensures Run(chain, run).fetched.Keys == Pending(chain, run) + UnavailableStored(chain, run)
    ensures |Run(chain, run).fetched| == |Pending(chain, run)| + |UnavailableStored(chain, run)|
  {
    forall h ensures h in Run(chain, run).fetched.Keys <==> h in Pending(chain, run) + UnavailableStored(chain, run) {
      CacheExact(chain, run, h);
      if Store(h) in run {
        var i :| 0 <= i < |run| && run[i] == Store(h);
      }
      if Ready(chain, run, h) {
        var i :| 0 <= i < |run| && run[i] == Store(h);
        assert run[i] in run;
      }
    }
    assert Pending(chain, run) !! UnavailableStored(chain, run);
  }

  lemma {:induction false} RunSnoc<B>(chain: int -> Option<B>, run: seq<Event>, e: Event)
    requires Valid(chain, run) && Enabled(Run(chain, run), e)
    ensures Valid(chain, run + [e]) && Run(chain, run + [e]) == Apply(chain, Run(chain, run), e)
  {
    var next := run + [e];
    assert next != [] && next[|next| - 1] == e && next[..|next| - 1] == run;
  }

  /** Every prefix of a run is a run, and its next event is enabled. */
  lemma {:induction false} RunTake<B>(chain: int -> Option<B>, run: seq<Event>, i: nat)
    requires Valid(chain, run) && i < |run|
    ensures Valid(chain, run[..i]) && Enabled(Run(chain, run[..i]), run[i])
    decreases |run|
  {
    var pre := run[..|run| - 1];
    if i < |pre| {
      RunTake(chain, pre, i);
      assert pre[..i] == run[..i];
    }
  }

  // The service itself.

  datatype Response = Response(blockHash: Option<string>, dynamicDsCreated: bool, reindexBlockHeight: Option<int>)

  datatype WorkerError = BlockNotFetched(h: int) | IndexFailed(reason: string)

  class WorkerService<B> {
    const chain: int -> Option<B>
    var fetchedBlocks: map<int, Option<B>>
    var isIndexing: bool
    var tasks: multiset<int>         // fetch tasks waiting for the node
    var indexed: seq<(int, B)>       // calls of indexBlock

    constructor (chain: int -> Option<B>)
      ensures this.chain == chain && !isIndexing && After([])
    {
      this.chain := chain;
      fetchedBlocks, isIndexing, tasks, indexed := map[], false, multiset{}, [];
    }

    ghost predicate Shows(s: State<B>)
      reads this
    {
      fetchedBlocks == s.fetched && tasks == s.inFlight && indexed == s.indexed
    }

    /** The service is in the state a run leads to. */
    ghost predicate After(run: seq<Event>)
      reads this
    {
      Valid(chain, run) && Shows(Run(chain, run))
    }

    /**
     * A fetch task up to its await: it asks the node exactly when no available block is cached. Null entries are
     * asked for again.
     */
    method StartFetch(height: int, ghost run: seq<Event>) returns (waiting: bool)
      requires After(run)
      modifies `tasks
      ensures After(run + [Start(height)])
      ensures waiting <==> !(chain(height).Some? && Ready(chain, run, height))
      ensures tasks == old(tasks) + if waiting then multiset{height} else multiset{}
    {
      waiting := !(height in fetchedBlocks && fetchedBlocks[height].Some?);
      if waiting {
        tasks := tasks + multiset{height};
      }
      HitExact(chain, run, height);
      RunSnoc(chain, run, Start(height));
    }

    /** The node answered: the result is stored, null included, over whatever is cached. */
    method StoreFetched(height: int, ghost run: seq<Event>)
      requires After(run) && height in tasks
      modifies `tasks, `fetchedBlocks
      ensures After(run + [Store(height)])
      ensures fetchedBlocks == old(fetchedBlocks)[height := chain(height)] && tasks == old(tasks) - multiset{height}
    {
      var block := chain(height);
      fetchedBlocks := fetchedBlocks[height := block];
      tasks := tasks - multiset{height};
      RunSnoc(chain, run, Store(height));
    }

    /** The fetch failed: it is logged and nothing is stored. */
    method FailFetch(height: int, ghost run: seq<Event>)
      requires After(run) && height in tasks
      modifies `tasks
      ensures After(run + [Fail(height)]) && tasks == old(tasks) - multiset{height}
    {
      tasks := tasks - multiset{height};
      RunSnoc(chain, run, Fail(height));
    }

    /** `processBlock`; `indexing` is how the indexer manager's `indexBlock` ends. */
    method ProcessBlock(height: int, indexing: Result<Response, string>, ghost run: seq<Event>)
      returns (r: Result<Response, WorkerError>)
      requires After(run)
      modifies `fetchedBlocks, `indexed, `isIndexing
      ensures After(run + [Process(height)]) && !isIndexing
      ensures indexed == old(indexed) + if Cached(chain, run, height) then [(height, chain(height).value)] else []
      ensures fetchedBlocks == old(fetchedBlocks) - if Cached(chain, run, height) then {height} else {}
      ensures
        if !Ready(chain, run, height) then r == Err(BlockNotFetched(height))
        else if chain(height).None? then r == Ok(Response(None, false, None))
        else if indexing.Ok? then r == Ok(indexing.value)
        else r == Err(IndexFailed(indexing.error))
    {
      isIndexing := true;
      CacheExact(chain, run, height);
      RunSnoc(chain, run, Process(height));
      if height in fetchedBlocks && fetchedBlocks[height].None? {
        r := Ok(Response(None, false, None));
      } else if height !in fetchedBlocks {
        r := Err(BlockNotFetched(height));
      } else {
        var block := fetchedBlocks[height].value;
        fetchedBlocks := fetchedBlocks - {height};
        indexed := indexed + [(height, block)];
        r := if indexing.Ok? then Ok(indexing.value) else Err(IndexFailed(indexing.error));
      }
      isIndexing := false;
    }

    /** `numFetchedBlocks` after any run: what is pending, plus every unavailable height ever fetched. */
    method NumFetchedBlocks(ghost run: seq<Event>) returns (n: nat)
      requires After(run)
      ensures n == |Pending(chain, run)| + |UnavailableStored(chain, run)|
    {
      n := |fetchedBlocks.Keys|;
      NumFetchedBlocksExact(chain, run);
    }
  }

  /**
   * A worker driven through a whole run shows the state the run theorems speak of; `indexing` is how each call of
   * `indexBlock` would end.
   */
  method Serve<B>(chain: int -> Option<B>, run: seq<Event>, indexing: seq<Result<Response, string>>)
    returns (worker: WorkerService<B>)
    requires Valid(chain, run) && |indexing| == |run|
    ensures fresh(worker) && worker.chain == chain && worker.After(run) && !worker.isIndexing
  {
    worker := new WorkerService(chain);
    for i := 0 to |run|
      invariant fresh(worker) && worker.chain == chain && !worker.isIndexing && worker.After(run[..i])
    {
      RunTake(chain, run, i);
      ghost var done := run[..i];
      assert run[..i + 1] == done + [run[i]];
      match run[i]
      case Start(h) => var _ := worker.StartFetch(h, done);
      case Store(h) => worker.StoreFetched(h, done);
      case Fail(h) => worker.FailFetch(h, done);
      case Process(h) => var _ := worker.ProcessBlock(h, indexing[i], done);
    }
    assert run[..|run|] == run;
  }

  /** Under the dispatcher's discipline the worker has made exactly the dispatcher's calls of `indexBlock`. */
  method ServeDisciplined<B>(
    chain: int -> Option<B>, ghost heightOf: B -> int, run: seq<Event>, indexing: seq<Result<Response, string>>)
    returns (worker: WorkerService<B>)
    requires Valid(chain, run) && |indexing| == |run|
    requires OwnHeights(chain, heightOf) && Disciplined(chain, run)
    ensures worker.indexed == DispatcherIndexes(chain, heightOf, ProcessedHeights(run))
    ensures worker.fetchedBlocks.Keys == Pending(chain, run) + UnavailableStored(chain, run)
  {
    worker := Serve(chain, run, indexing);
    DisciplinedRefines(chain, heightOf, run);
    NumFetchedBlocksExact(chain, run);
  }
}
