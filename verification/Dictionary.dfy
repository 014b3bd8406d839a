/** The dictionary compiler of the fetch service: `buildDictionaryQueryEntries` and `getModulos`. */
module Dictionary {
  import opened Seqs
  import opened NearTypes
  import opened Filters
  import opened QueryEntries
  import opened Dedup
  import opened ProjectModel

  /** What looking at one data source or handler does to the compilation. */
  datatype Outcome = Throws | Fallback | Contributes(entries: seq<Entry>)

  datatype Visit = Open(ds: DsKind) | Handle(ds: DsKind, handler: Handler)

  function HandleIn(ds: DsKind): Handler -> Visit { h => Handle(ds, h) }

  function VisitsOf(ds: DataSource): seq<Visit> { [Open(ds.kind)] + Map(HandleIn(ds.kind), ds.handlers) }

  /** Everything the compiler looks at, in order. */
  function AllVisits(p: Project, startBlock: int): seq<Visit> { FlatMap(VisitsOf, FilteredDs(p, startBlock)) }

  /** getBaseHandlerKind when it does not throw: None for a handler kind its data source does not know. */
  function BaseKind(ds: DsKind, h: Handler): Option<Kind> {
    if ds.Runtime? && h.kind.Base? then Some(h.kind.kind)
    else if ds.Custom? && h.kind.Named? && ds.plugin.Some? && h.kind in ds.plugin.value
    then ds.plugin.value[h.kind].baseHandlerKind
    else None
  }

  /** A custom handler whose processor is missing, or has no base kind although the handler is a custom one. */
  predicate LookupThrows(ds: DsKind, h: Handler) {
    ds.Custom? &&
    (ds.plugin.None? || h.kind !in ds.plugin.value
     || (h.kind.Named? && ds.plugin.value[h.kind].baseHandlerKind.None?))
  }

  function Present(fs: seq<Option<HandlerFilter>>): seq<HandlerFilter> {
    if fs == [] then []
    else (if fs[0].Some? then [fs[0].value] else []) + Present(fs[1..])
  }

  /** The filters that decide for a handler: its own, or the base filters of its processor. */
  function FilterList(ds: DsKind, h: Handler): seq<HandlerFilter> {
    if ds.Custom? then
      if ds.plugin.Some? && h.kind in ds.plugin.value then Present(ds.plugin.value[h.kind].baseFilter) else []
    else Present([h.filter])
  }

  /** The string properties of a filter object; a block filter has none the other kinds read. */
  function FieldsOf(f: HandlerFilter): seq<Field> { if f.OnFields? then f.fields else [] }

  predicate HasModulo(f: HandlerFilter) { f.OnBlock? && f.modulo.Some? && f.modulo.value != 0 }

  /** The filter narrows its kind enough for the dictionary. */
  predicate Usable(kind: Option<Kind>, f: HandlerFilter) {
    match kind
    case None => true
    case Some(Block) => HasModulo(f)
    case Some(Transaction) => Truthy(FieldsOf(f), "sender") || Truthy(FieldsOf(f), "receiver")
    case Some(Receipt) =>
      Truthy(FieldsOf(f), "sender") || Truthy(FieldsOf(f), "receiver") || Truthy(FieldsOf(f), "signer")
    case Some(Action) => Truthy(FieldsOf(f), "type")
  }

  function EntriesFor(kind: Option<Kind>, f: HandlerFilter): seq<Entry> {
    match kind
    case Some(Transaction) => [TxFilterToQueryEntry(FieldsOf(f))]
    case Some(Receipt) => [ReceiptFilterToQueryEntry(FieldsOf(f))]
    case Some(Action) => [ActionFilterToQueryEntry(FieldsOf(f))]
    case _ => []
  }

  function EntriesOf(kind: Option<Kind>): HandlerFilter -> seq<Entry> { f => EntriesFor(kind, f) }

  /** The handler's plugin answered with its own query entry. */
  predicate HasOwnQuery(ds: DsKind, h: Handler) { ds.Custom? && h.query.Some? }

  predicate AllUsable(ds: DsKind, h: Handler) {
    FilterList(ds, h) != [] && forall f :: f in FilterList(ds, h) ==> Usable(BaseKind(ds, h), f)
  }

  function OutcomeOf(v: Visit): Outcome {
    match v
    case Open(ds) => if ds.Custom? && ds.plugin.None? then Throws else Contributes([])
    case Handle(ds, h) =>
      if LookupThrows(ds, h) then Throws
      else if HasOwnQuery(ds, h) then Contributes([h.query.value])
      else if !AllUsable(ds, h) then Fallback
      else Contributes(FlatMap(EntriesOf(BaseKind(ds, h)), FilterList(ds, h)))
  }

  /** The first visit that throws or falls back decides; otherwise all entries are collected. */
  function Scan(vs: seq<Visit>): Outcome {
    if vs == [] then Contributes([])
    else Then(OutcomeOf(vs[0]), Scan(vs[1..]))
  }

  function Then(first: Outcome, rest: Outcome): Outcome {
    if !first.Contributes? then first
    else if !rest.Contributes? then rest
    else Contributes(first.entries + rest.entries)
  }

  datatype LookupError = HandlerLookupFailed

  function Finish(o: Outcome): Result<seq<Entry>, LookupError> {
    match o
    case Throws => Err(HandlerLookupFailed)
    case Fallback => Ok([])
    case Contributes(entries) => Ok(UniqBy(entries))
  }

  /** Specification of `buildDictionaryQueryEntries`. */
  function Compile(p: Project, startBlock: int): Result<seq<Entry>, LookupError> {
    Finish(Scan(AllVisits(p, startBlock)))
  }

  lemma {:induction false} ThenAssociative(a: Outcome, b: Outcome, c: Outcome)
    ensures Then(Then(a, b), c) == Then(a, Then(b, c))
  {
    if a.Contributes? && b.Contributes? && c.Contributes? {
      ConcatAssociative(a.entries, b.entries, c.entries);
    }
  }

  lemma {:induction false} ScanConcat(s: seq<Visit>, t: seq<Visit>)
    ensures Scan(s + t) == Then(Scan(s), Scan(t))
  {
    if s == [] {
      assert s + t == t;
    } else {
      ScanConcat(s[1..], t);
      assert (s + t)[1..] == s[1..] + t && (s + t)[0] == s[0];
      ThenAssociative(OutcomeOf(s[0]), Scan(s[1..]), Scan(t));
    }
  }

  /** Returns as soon as the scan is decided. */
  lemma {:induction false} Decided(done: seq<Visit>, entries: seq<Entry>, v: Visit, rest: seq<Visit>)
    requires Scan(done) == Contributes(entries)
    ensures !OutcomeOf(v).Contributes? ==> Scan(done + [v] + rest) == OutcomeOf(v)
    ensures OutcomeOf(v).Contributes? ==> Scan(done + [v]) == Contributes(entries + OutcomeOf(v).entries)
  {
    ScanConcat(done + [v], rest);
    ScanConcat(done, [v]);
    assert Scan([v]) == Then(OutcomeOf(v), Scan([v][1..]));
  }

  // The imperative compiler.

  /** `getBaseHandlerKind` */
  method GetBaseHandlerKind(ds: DsKind, handler: Handler) returns (r: Result<Option<Kind>, LookupError>)
    ensures r.Err? <==> ds.Custom? && handler.kind.Named?
                        && (ds.plugin.None? || handler.kind !in ds.plugin.value
                            || ds.plugin.value[handler.kind].baseHandlerKind.None?)
    ensures r.Ok? && ds.Runtime? && handler.kind.Base? ==> r.value == Some(handler.kind.kind)
    ensures r.Ok? && ds.Custom? && handler.kind.Named? ==> r.value == ds.plugin.value[handler.kind].baseHandlerKind
    ensures r.Ok? && !(ds.Runtime? && handler.kind.Base?) && !(ds.Custom? && handler.kind.Named?) ==> r.value == None
  {
    if ds.Runtime? && handler.kind.Base? {
      return Ok(Some(handler.kind.kind));
    } else if ds.Custom? && handler.kind.Named? {
      if ds.plugin.None? || handler.kind !in ds.plugin.value {
        return Err(HandlerLookupFailed);
      }
      var baseHandler := ds.plugin.value[handler.kind].baseHandlerKind;
      if baseHandler.None? {
        return Err(HandlerLookupFailed);
      }
      return Ok(baseHandler);
    }
    return Ok(None);
  }

  /** The body of the handler loop: what one handler adds, or that it ends the compilation. */
  method CompileHandler(ds: DsKind, handler: Handler) returns (r: Outcome)
    ensures r == OutcomeOf(Handle(ds, handler))
  {
    var lookup := GetBaseHandlerKind(ds, handler);
    if lookup.Err? {
      return Throws;
    }
    var baseHandlerKind := lookup.value;
    var filterList: seq<HandlerFilter>;
    if ds.Custom? {
      if ds.plugin.None? || handler.kind !in ds.plugin.value {
        return Throws;
      }
      if handler.query.Some? {
        return Contributes([handler.query.value]);
      }
      filterList := Present(ds.plugin.value[handler.kind].baseFilter);
    } else {
      filterList := Present([handler.filter]);
    }
    if filterList == [] {
      return Fallback;
    }
    match baseHandlerKind {
      case Some(Block) =>
        if exists f :: f in filterList && !HasModulo(f) {
          return Fallback;
        }
        NoEntries(baseHandlerKind, filterList);
        return Contributes([]);
      case Some(Transaction) =>
        if exists f :: f in filterList && !(Truthy(FieldsOf(f), "sender") || Truthy(FieldsOf(f), "receiver")) {
          return Fallback;
        }
        var compile := (f: HandlerFilter) => TxFilterToQueryEntry(FieldsOf(f));
        MapAsFlatMap(compile, EntriesOf(baseHandlerKind), filterList);
        return Contributes(Map(compile, filterList));
      case Some(Receipt) =>
        var narrow := (f: HandlerFilter) =>
          Truthy(FieldsOf(f), "sender") || Truthy(FieldsOf(f), "receiver") || Truthy(FieldsOf(f), "signer");
        if exists f :: f in filterList && !narrow(f) {
          return Fallback;
        }
        var compile := (f: HandlerFilter) => ReceiptFilterToQueryEntry(FieldsOf(f));
        MapAsFlatMap(compile, EntriesOf(baseHandlerKind), filterList);
        return Contributes(Map(compile, filterList));
      case Some(Action) =>
        if exists f :: f in filterList && !Truthy(FieldsOf(f), "type") {
          return Fallback;
        }
        var compile := (f: HandlerFilter) => ActionFilterToQueryEntry(FieldsOf(f));
        MapAsFlatMap(compile, EntriesOf(baseHandlerKind), filterList);
        return Contributes(Map(compile, filterList));
      case None =>
        NoEntries(baseHandlerKind, filterList);
        return Contributes([]);
    }
  }

  lemma {:induction false} NoEntries(kind: Option<Kind>, fs: seq<HandlerFilter>)
    requires kind == Some(Block) || kind == None
    ensures FlatMap(EntriesOf(kind), fs) == []
  {
    if fs != [] {
      NoEntries(kind, fs[1..]);
    }
  }

  /** The loop over the handlers of one data source; it ends at the first handler that throws or falls back. */
  method CompileDataSource(ds: DataSource) returns (r: Outcome)
    ensures r == Scan(VisitsOf(ds))
  {
    var entries: seq<Entry> := [];
    ghost var handlers := Map(HandleIn(ds.kind), ds.handlers);
    Decided([], [], Open(ds.kind), handlers);
    assert [] + [Open(ds.kind)] + handlers == VisitsOf(ds);
    if ds.kind.Custom? && ds.kind.plugin.None? {
      return Throws;
    }
    assert [] + [Open(ds.kind)] == [Open(ds.kind)] + handlers[..0];
    for j := 0 to |ds.handlers|
      invariant Scan([Open(ds.kind)] + handlers[..j]) == Contributes(entries)
    {
      var outcome := CompileHandler(ds.kind, ds.handlers[j]);
      Decided([Open(ds.kind)] + handlers[..j], entries, handlers[j], handlers[j + 1..]);
      assert [Open(ds.kind)] + handlers[..j] + [handlers[j]] + handlers[j + 1..] == VisitsOf(ds);
      assert [Open(ds.kind)] + handlers[..j] + [handlers[j]] == [Open(ds.kind)] + handlers[..j + 1];
      match outcome {
        case Throws => return outcome;
        case Fallback => return outcome;
        case Contributes(more) => entries := entries + more;
      }
    }
    assert handlers[..|handlers|] == handlers;
    return Contributes(entries);
  }

  /** `buildDictionaryQueryEntries` */
  method BuildDictionaryQueryEntries(p: Project, startBlock: int) returns (r: Result<seq<Entry>, LookupError>)
    ensures r == Compile(p, startBlock)
  {
    var queryEntries: seq<Entry> := [];
    var filteredDs := FilteredDs(p, startBlock);
    for i := 0 to |filteredDs|
      invariant Scan(FlatMap(VisitsOf, filteredDs[..i])) == Contributes(queryEntries)
    {
      var outcome := CompileDataSource(filteredDs[i]);
      FlatMapAt(VisitsOf, filteredDs, i);
      FlatMapStep(VisitsOf, filteredDs, i);
      ScanConcat(FlatMap(VisitsOf, filteredDs[..i]), VisitsOf(filteredDs[i]));
      ScanConcat(FlatMap(VisitsOf, filteredDs[..i]) + VisitsOf(filteredDs[i]), FlatMap(VisitsOf, filteredDs[i + 1..]));
      match outcome {
        case Throws => return Err(HandlerLookupFailed);
        case Fallback => return Ok([]);
        case Contributes(entries) => queryEntries := queryEntries + entries;
      }
    }
    assert filteredDs[..|filteredDs|] == filteredDs;
    return Ok(UniqBy(queryEntries));
  }

  /** A block handler with a non-zero modulus. */
  predicate AsksModulo(h: Handler, m: int) {
    h.kind == Base(Block) && h.filter.Some? && h.filter.value.OnBlock? && h.filter.value.modulo == Some(m) && m != 0
  }

  function HandlerModulos(h: Handler): seq<int> {
    if h.kind == Base(Block) && h.filter.Some? && HasModulo(h.filter.value) then [h.filter.value.modulo.value] else []
  }

  function DsModulos(ds: DataSource): seq<int> {
    if ds.kind.Custom? then [] else FlatMap(HandlerModulos, ds.handlers)
  }

  /** Specification of `getModulos`: static data sources only, whatever their start block. */
  function Modulos(p: Project): seq<int> { FlatMap(DsModulos, p.dataSources) }

  /** `getModulos` */
  method GetModulos(p: Project) returns (modulos: seq<int>)
    ensures modulos == Modulos(p)
    ensures forall m :: m in modulos <==> exists ds, h ::
      ds in p.dataSources && !ds.kind.Custom? && h in ds.handlers && AsksModulo(h, m)
  {
    modulos := [];
    for i := 0 to |p.dataSources|
      invariant modulos == FlatMap(DsModulos, p.dataSources[..i])
    {
      var ds := p.dataSources[i];
      FlatMapStep(DsModulos, p.dataSources, i);
      if !ds.kind.Custom? {
        ghost var before := modulos;
        for j := 0 to |ds.handlers|
          invariant modulos == before + FlatMap(HandlerModulos, ds.handlers[..j])
        {
          var handler := ds.handlers[j];
          if handler.kind == Base(Block) && handler.filter.Some? && HasModulo(handler.filter.value) {
            modulos := modulos + [handler.filter.value.modulo.value];
          }
          FlatMapStep(HandlerModulos, ds.handlers, j);
        }
        assert ds.handlers[..|ds.handlers|] == ds.handlers;
      }
    }
    assert p.dataSources[..|p.dataSources|] == p.dataSources;
    forall m {
      ModuloMember(p, m);
    }
  }

  lemma {:induction false} ModuloMember(p: Project, m: int)
    ensures m in Modulos(p) <==> exists ds, h ::
      ds in p.dataSources && !ds.kind.Custom? && h in ds.handlers && AsksModulo(h, m)
  {
    forall h ensures m in HandlerModulos(h) <==> AsksModulo(h, m) {
    }
    FlatMapMember(DsModulos, p.dataSources, m);
    forall ds | ds in p.dataSources && !ds.kind.Custom?
      ensures m in DsModulos(ds) <==> exists h :: h in ds.handlers && m in HandlerModulos(h)
    {
      FlatMapMember(HandlerModulos, ds.handlers, m);
    }
  }
}
