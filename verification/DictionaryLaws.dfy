/** What the compiled dictionary query guarantees: soundness, its converse, order independence. */
module DictionaryLaws {
  import opened Seqs
  import opened NearTypes
  import opened Filters
  import opened QueryEntries
  import opened Dedup
  import opened ProjectModel
  import opened Dictionary
  import opened Assembly

  function EntityOf(kind: Kind): string {
    match kind
    case Transaction => "transactions"
    case Receipt => "receipts"
    case Action => "actions"
    case Block => "blocks"
  }

  /** The block has an item of the entity indexed under `row`. */
  ghost predicate RowOf(v: BlockView, entity: string, row: Row) {
    || (entity == "transactions" && exists tx :: tx in v.transactions && row == TransactionRow(tx))
    || (entity == "receipts" && exists r :: r in v.receipts && row == ReceiptRow(r))
    || (entity == "actions" && exists a :: a in v.actions && row == ActionRow(a))
  }

  /** The dictionary reports the block: some entry holds on one of its rows. */
  ghost predicate Reports(entries: seq<Entry>, v: BlockView) {
    exists entity, row :: RowOf(v, entity, row) && Selects(entries, entity, row)
  }

  /** A modulus makes the fetch service visit the height. */
  predicate ModuloHits(p: Project, height: int) {
    exists m :: m in Modulos(p) && m != 0 && height % m == 0
  }

  /**
   * The run-time filter of the kind accepts some item of the block. A block filter's timestamp can only reject
   * further, so its modulo part is what matters here.
   */
  ghost predicate Accepts(kind: Kind, filter: Option<HandlerFilter>, v: BlockView) {
    var fields := if filter.None? then None else Some(FieldsOf(filter.value));
    match kind
    case Block =>
      FilterBlockModulo(v.header.height, if filter.Some? && filter.value.OnBlock? then filter.value.modulo else None)
    case Transaction => exists tx :: tx in v.transactions && FilterTransaction(tx, fields)
    case Receipt => exists r :: r in v.receipts && FilterReceipt(r, fields)
    case Action => exists a :: a in v.actions && FilterAction(a, fields)
  }

  /** The exact condition under which a compiled entry selects all its filter accepts; see QueryEntries. */
  predicate Faithful(kind: Kind, f: HandlerFilter) {
    IsObject(FieldsOf(f)) &&
    match kind
    case Block => true
    case Transaction => Usual(FieldsOf(f), OWNER_KEYS)
    case Receipt => Usual(FieldsOf(f), RECEIPT_KEYS)
    case Action => OwnerFieldsNonEmpty(FieldsOf(f)) || !CanAccept(FieldsOf(f))
  }

  ghost predicate AllProduced(v: BlockView) { forall a :: a in v.actions ==> Produced(a) }

  /** Every visit of a scan that completes has contributed its entries. */
  lemma {:induction false} ScanMember(vs: seq<Visit>, v: Visit)
    requires v in vs && Scan(vs).Contributes?
    ensures OutcomeOf(v).Contributes?
    ensures forall e :: e in OutcomeOf(v).entries ==> e in Scan(vs).entries
  {
    assert vs == [vs[0]] + vs[1..];
    if v != vs[0] {
      ScanMember(vs[1..], v);
    }
  }

  lemma {:induction false} ActiveVisit(p: Project, startBlock: int, ds: DataSource, h: Handler)
    requires ds in AllSources(p) && Started(ds, startBlock) && h in ds.handlers
    ensures Handle(ds.kind, h) in AllVisits(p, startBlock)
  {
    FilteredDsMember(p, startBlock, ds);
    var i :| 0 <= i < |ds.handlers| && ds.handlers[i] == h;
    assert VisitsOf(ds)[i + 1] == Handle(ds.kind, h);
    FlatMapMember(VisitsOf, FilteredDs(p, startBlock), Handle(ds.kind, h));
  }

  /** An item the run-time filter accepts is selected by the entry compiled from a faithful filter. */
  lemma {:induction false} AcceptedIsSelected(kind: Kind, f: HandlerFilter, v: BlockView, entries: seq<Entry>)
    requires kind != Block && Usable(Some(kind), f) && Faithful(kind, f) && AllProduced(v)
    requires Accepts(kind, Some(f), v) && EntriesFor(Some(kind), f)[0] in entries
    ensures Reports(UniqBy(entries), v)
  {
    var fields, e := FieldsOf(f), EntriesFor(Some(kind), f)[0];
    var row: Row;
    match kind {
      case Transaction =>
        var tx :| tx in v.transactions && FilterTransaction(tx, Some(fields));
        TransactionEntryAgrees(fields, tx);
        row := TransactionRow(tx);
      case Receipt =>
        var r :| r in v.receipts && FilterReceipt(r, Some(fields));
        ReceiptEntryAgrees(fields, r);
        row := ReceiptRow(r);
      case Action =>
        var a :| a in v.actions && FilterAction(a, Some(fields));
        ActionEntryAgrees(fields, a);
        row := ActionRow(a);
    }
    assert RowOf(v, EntityOf(kind), row);
    assert Selects(entries, EntityOf(kind), row);
    UniqByMeaning(entries, EntityOf(kind), row);
  }

  lemma {:induction false} VisitSound(
    p: Project, startBlock: int, entries: seq<Entry>, ds: DsKind, h: Handler, f: HandlerFilter, v: BlockView)
    requires Compile(p, startBlock) == Ok(entries) && entries != []
    requires Handle(ds, h) in AllVisits(p, startBlock) && !HasOwnQuery(ds, h)
    requires BaseKind(ds, h).Some? && BaseKind(ds, h).value != Block
    requires f in FilterList(ds, h) && Faithful(BaseKind(ds, h).value, f)
    requires AllProduced(v) && Accepts(BaseKind(ds, h).value, Some(f), v)
    ensures Reports(entries, v)
  {
    var kind := BaseKind(ds, h).value;
    ScanMember(AllVisits(p, startBlock), Handle(ds, h));
    FlatMapContains(EntriesOf(Some(kind)), FilterList(ds, h), f, EntriesFor(Some(kind), f)[0]);
    AcceptedIsSelected(kind, f, v, Scan(AllVisits(p, startBlock)).entries);
  }

  /**
   * Soundness for every considered handler, static, dynamic or custom, decided by a list of filters: whatever
   * one of its filters accepts lies in a block the dictionary reports.
   */
  lemma {:induction false} FilterListSound(
    p: Project, startBlock: int, entries: seq<Entry>, ds: DataSource, h: Handler, f: HandlerFilter, v: BlockView)
    requires Compile(p, startBlock) == Ok(entries) && entries != []
    requires ds in AllSources(p) && Started(ds, startBlock) && h in ds.handlers && !HasOwnQuery(ds.kind, h)
    requires BaseKind(ds.kind, h).Some? && BaseKind(ds.kind, h).value != Block
    requires f in FilterList(ds.kind, h) && Faithful(BaseKind(ds.kind, h).value, f)
    requires AllProduced(v) && Accepts(BaseKind(ds.kind, h).value, Some(f), v)
    ensures Reports(entries, v)
  {
    ActiveVisit(p, startBlock, ds, h);
    VisitSound(p, startBlock, entries, ds.kind, h, f, v);
  }

  /** Once the compilation has contributed entries, a runtime handler has a filter, and a usable one. */
  lemma {:induction false} CompiledHandler(p: Project, startBlock: int, ds: DataSource, h: Handler)
    requires Compile(p, startBlock).Ok? && Compile(p, startBlock).value != []
    requires ds in AllSources(p) && ds.kind.Runtime? && Started(ds, startBlock)
    requires h in ds.handlers && h.kind.Base?
    ensures h.filter.Some? && FilterList(ds.kind, h) == [h.filter.value]
    ensures Usable(Some(h.kind.kind), h.filter.value)
  {
    ActiveVisit(p, startBlock, ds, h);
    ScanMember(AllVisits(p, startBlock), Handle(ds.kind, h));
    PresentSingle(h.filter);
    assert AllUsable(ds.kind, h);
    assert h.filter.value in FilterList(ds.kind, h);
  }

  /** The modulus of a static runtime block handler is among those the fetch service reads. */
  lemma {:induction false} StaticModulo(p: Project, ds: DataSource, h: Handler)
    requires ds in p.dataSources && ds.kind.Runtime? && h in ds.handlers
    requires h.kind == Base(Block) && h.filter.Some? && HasModulo(h.filter.value)
    ensures h.filter.value.modulo.value in Modulos(p)
  {
    assert AsksModulo(h, h.filter.value.modulo.value);
    ModuloMember(p, h.filter.value.modulo.value);
  }

  /** The fetch service visits the block; an empty query means that it visits all of them. */
  ghost predicate Visited(p: Project, entries: seq<Entry>, v: BlockView) {
    entries == [] || Reports(entries, v) || ModuloHits(p, v.header.height)
  }

  /**
   * Dictionary soundness: every block in which the run-time filter of a runtime handler accepts an item is
   * visited. Block handlers must belong to a static source.
   */
  lemma {:induction false} DictionarySound(
    p: Project, startBlock: int, entries: seq<Entry>, ds: DataSource, h: Handler, v: BlockView)
    requires Compile(p, startBlock) == Ok(entries)
    requires ds in AllSources(p) && ds.kind.Runtime? && Started(ds, startBlock)
    requires h in ds.handlers && h.kind.Base? && (h.kind == Base(Block) ==> ds in p.dataSources)
    requires h.filter.Some? ==> Faithful(h.kind.kind, h.filter.value)
    requires AllProduced(v) && Accepts(h.kind.kind, h.filter, v)
    ensures Visited(p, entries, v)
  {
    if entries != [] {
      CompiledHandler(p, startBlock, ds, h);
      if h.kind.kind == Block {
        StaticModulo(p, ds, h);
      } else {
        FilterListSound(p, startBlock, entries, ds, h, h.filter.value, v);
      }
    }
  }

  lemma {:induction false} PresentSingle(filter: Option<HandlerFilter>)
    ensures Present([filter]) == if filter.Some? then [filter.value] else []
  {
    assert [filter][1..] == [];
  }

  /** Soundness carried to the height where the handler runs: no source may start in between. */
  lemma {:induction false} DictionarySoundAt(
    p: Project, startBlock: int, entries: seq<Entry>, ds: DataSource, h: Handler, v: BlockView)
    requires Compile(p, startBlock) == Ok(entries)
    requires startBlock <= v.header.height
    requires forall d :: d in AllSources(p) && Started(d, v.header.height) ==> Started(d, startBlock)
    requires ds in GetAllDataSources(p, v.header.height) && ds.kind.Runtime?
    requires h in ds.handlers && h.kind.Base? && (h.kind == Base(Block) ==> ds in p.dataSources)
    requires h.filter.Some? ==> Faithful(h.kind.kind, h.filter.value)
    requires AllProduced(v) && Accepts(h.kind.kind, h.filter, v)
    ensures Visited(p, entries, v)
  {
    ActiveSourcesAgree(p, startBlock, v.header.height);
    SameMultisetMember(GetAllDataSources(p, v.header.height), FilteredDs(p, startBlock), ds);
    DictionarySound(p, startBlock, entries, ds, h, v);
  }

  // Nothing superfluous.

  /** An entry of a completed scan was contributed by some visit. */
  lemma {:induction false} ScanOrigin(vs: seq<Visit>, e: Entry) returns (v: Visit)
    requires Scan(vs).Contributes? && e in Scan(vs).entries
    ensures v in vs && OutcomeOf(v).Contributes? && e in OutcomeOf(v).entries
  {
    assert vs == [vs[0]] + vs[1..];
    if e in OutcomeOf(vs[0]).entries {
      v := vs[0];
    } else {
      v := ScanOrigin(vs[1..], e);
    }
  }

  /** The handler asks for the block: its plugin's own query reports it, or one of its filters accepts an item. */
  ghost predicate Wants(ds: DsKind, h: Handler, v: BlockView) {
    if HasOwnQuery(ds, h) then Reports([h.query.value], v)
    else
      && BaseKind(ds, h).Some? && BaseKind(ds, h).value != Block
      && exists f :: f in FilterList(ds, h) && Accepts(BaseKind(ds, h).value, Some(f), v)
  }

  /** A row an entry compiled from a usable filter holds on belongs to an item the filter accepts. */
  lemma {:induction false} SelectedIsAccepted(kind: Kind, f: HandlerFilter, v: BlockView, row: Row)
    requires kind != Block && Usable(Some(kind), f) && IsObject(FieldsOf(f)) && AllProduced(v)
    requires RowOf(v, EntityOf(kind), row) && EntryHolds(EntriesFor(Some(kind), f)[0], row)
    ensures Accepts(kind, Some(f), v)
  {
    var fields := FieldsOf(f);
    CompiledConditions(fields, row);
    match kind {
      case Transaction =>
        var tx :| tx in v.transactions && row == TransactionRow(tx);
        DiffersMember(fields, "sender", tx.signerId);
        DiffersMember(fields, "receiver", tx.receiverId);
      case Receipt =>
        var r :| r in v.receipts && row == ReceiptRow(r);
        RowPassesReceipt(fields, r);
      case Action =>
        var a :| a in v.actions && row == ActionRow(a);
        FilterActionMember(fields, a);
    }
  }

  lemma {:induction false} RowPassesReceipt(f: seq<Field>, r: ReceiptView)
    requires IsObject(f) && forall x :: x in f ==> x.key in ReceiptRow(r) && ReceiptRow(r)[x.key] == x.value
    ensures FilterReceipt(r, Some(f))
  {
    DiffersMember(f, "sender", r.predecessorId);
    DiffersMember(f, "receiver", r.receiverId);
    if Get(f, "signer").Some? {
      GetMember(f, "signer", Get(f, "signer").value);
      assert Field("signer", Get(f, "signer").value) in f;
    }
  }

  /** Every considered filter is an object: no property twice. */
  ghost predicate AllObjects(p: Project, startBlock: int) {
    forall d, g, f :: Handle(d, g) in AllVisits(p, startBlock) && f in FilterList(d, g) ==> IsObject(FieldsOf(f))
  }

  ghost predicate SomeHandlerWants(p: Project, startBlock: int, v: BlockView) {
    exists d, g :: Handle(d, g) in AllVisits(p, startBlock) && Wants(d, g, v)
  }

  /** What selects a row was contributed by some considered handler. */
  lemma {:induction false} SelectedOrigin(p: Project, startBlock: int, entries: seq<Entry>, entity: string, row: Row)
    returns (ds: DsKind, h: Handler, e: Entry)
    requires Compile(p, startBlock) == Ok(entries) && Selects(entries, entity, row)
    ensures Handle(ds, h) in AllVisits(p, startBlock)
    ensures OutcomeOf(Handle(ds, h)).Contributes? && e in OutcomeOf(Handle(ds, h)).entries
    ensures e.entity == entity && EntryHolds(e, row)
  {
    e :| e in entries && e.entity == entity && EntryHolds(e, row);
    UniqMember(Scan(AllVisits(p, startBlock)).entries, e);
    var visit := ScanOrigin(AllVisits(p, startBlock), e);
    ds, h := visit.ds, visit.handler;
  }

  lemma {:induction false} ContributedIsWanted(ds: DsKind, h: Handler, e: Entry, v: BlockView, row: Row)
    requires OutcomeOf(Handle(ds, h)).Contributes? && e in OutcomeOf(Handle(ds, h)).entries
    requires RowOf(v, e.entity, row) && EntryHolds(e, row) && AllProduced(v)
    requires forall f :: f in FilterList(ds, h) ==> IsObject(FieldsOf(f))
    ensures Wants(ds, h, v)
  {
    if HasOwnQuery(ds, h) {
      assert Selects([h.query.value], e.entity, row);
    } else {
      var f := CompiledOrigin(ds, h, e);
      SelectedIsAccepted(BaseKind(ds, h).value, f, v, row);
    }
  }

  /** A contributed entry is compiled from one of the handler's filters, which is usable. */
  lemma {:induction false} CompiledOrigin(ds: DsKind, h: Handler, e: Entry) returns (f: HandlerFilter)
    requires OutcomeOf(Handle(ds, h)).Contributes? && e in OutcomeOf(Handle(ds, h)).entries && !HasOwnQuery(ds, h)
    ensures BaseKind(ds, h).Some? && BaseKind(ds, h).value != Block
    ensures f in FilterList(ds, h) && Usable(BaseKind(ds, h), f) && EntriesFor(BaseKind(ds, h), f) == [e]
    ensures e.entity == EntityOf(BaseKind(ds, h).value)
  {
    FlatMapMember(EntriesOf(BaseKind(ds, h)), FilterList(ds, h), e);
    f :| f in FilterList(ds, h) && e in EntriesFor(BaseKind(ds, h), f);
  }

  /**
   * The converse of soundness: the dictionary reports no block that no considered handler asks for. It needs no
   * faithful filters.
   */
  lemma {:induction false} ReportedIsWanted(p: Project, startBlock: int, entries: seq<Entry>, v: BlockView)
    requires Compile(p, startBlock) == Ok(entries) && Reports(entries, v) && AllProduced(v)
    requires AllObjects(p, startBlock)
    ensures SomeHandlerWants(p, startBlock, v)
  {
    var entity, row :| RowOf(v, entity, row) && Selects(entries, entity, row);
    var ds, h, e := SelectedOrigin(p, startBlock, entries, entity, row);
    ContributedIsWanted(ds, h, e, v, row);
  }

  /** A plugin's own query is part of the compiled one. */
  lemma {:induction false} OwnQueryReported(
    p: Project, startBlock: int, entries: seq<Entry>, ds: DsKind, h: Handler, v: BlockView)
    requires Compile(p, startBlock) == Ok(entries) && entries != []
    requires Handle(ds, h) in AllVisits(p, startBlock) && HasOwnQuery(ds, h) && Reports([h.query.value], v)
    ensures Reports(entries, v)
  {
    ScanMember(AllVisits(p, startBlock), Handle(ds, h));
    var entity, row :| RowOf(v, entity, row) && Selects([h.query.value], entity, row);
    assert h.query.value in OutcomeOf(Handle(ds, h)).entries;
    UniqByMeaning(Scan(AllVisits(p, startBlock)).entries, entity, row);
  }

  /** The query was compiled from filters that select all they accept. */
  ghost predicate AllFaithful(p: Project, startBlock: int) {
    forall d, g, f :: Handle(d, g) in AllVisits(p, startBlock) && f in FilterList(d, g) && BaseKind(d, g).Some? ==>
      Faithful(BaseKind(d, g).value, f)
  }

  lemma {:induction false} WantedIsReported(p: Project, startBlock: int, entries: seq<Entry>, v: BlockView)
    requires Compile(p, startBlock) == Ok(entries) && entries != [] && AllProduced(v)
    requires AllFaithful(p, startBlock) && SomeHandlerWants(p, startBlock, v)
    ensures Reports(entries, v)
  {
    var ds, h :| Handle(ds, h) in AllVisits(p, startBlock) && Wants(ds, h, v);
    if HasOwnQuery(ds, h) {
      OwnQueryReported(p, startBlock, entries, ds, h, v);
    } else {
      var f :| f in FilterList(ds, h) && Accepts(BaseKind(ds, h).value, Some(f), v);
      VisitSound(p, startBlock, entries, ds, h, f, v);
    }
  }

  /**
   * What the compiled query means: when every filter it is compiled from is faithful, it reports exactly the
   * blocks some considered handler asks for.
   */
  lemma {:induction false} DictionaryMeaning(p: Project, startBlock: int, entries: seq<Entry>, v: BlockView)
    requires Compile(p, startBlock) == Ok(entries) && entries != [] && AllProduced(v)
    requires AllObjects(p, startBlock) && AllFaithful(p, startBlock)
    ensures Reports(entries, v) <==> SomeHandlerWants(p, startBlock, v)
  {
    if Reports(entries, v) {
      ReportedIsWanted(p, startBlock, entries, v);
    }
    if SomeHandlerWants(p, startBlock, v) {
      WantedIsReported(p, startBlock, entries, v);
    }
  }

  // Scans that no lookup interrupts.

  /** No handler lookup throws. */
  predicate NoThrow(p: Project, startBlock: int) {
    forall v :: v in AllVisits(p, startBlock) ==> !OutcomeOf(v).Throws?
  }

  predicate FallsBack(vs: seq<Visit>) {
    exists v :: v in vs && OutcomeOf(v).Fallback?
  }

  /** What a visit contributes when the scan completes. */
  function EntriesAt(v: Visit): seq<Entry> {
    var o := OutcomeOf(v);
    if o.Contributes? then o.entries else []
  }

  lemma {:induction false} ScanExact(vs: seq<Visit>)
    requires forall v :: v in vs ==> !OutcomeOf(v).Throws?
    ensures Scan(vs) == if FallsBack(vs) then Fallback else Contributes(FlatMap(EntriesAt, vs))
  {
    if vs != [] {
      assert vs == [vs[0]] + vs[1..];
      ScanExact(vs[1..]);
      if FallsBack(vs[1..]) {
        var v :| v in vs[1..] && OutcomeOf(v).Fallback?;
        assert v in vs;
      }
    }
  }

  lemma {:induction false} UniqByEmpty(s: seq<Entry>)
    ensures UniqBy(s) == [] <==> s == []
  {
    if s != [] {
      UniqKeys(s, Key(s[0]));
      assert s[0] in s;
    }
  }

  // Order of the data sources and of their handlers.

  lemma {:induction false} VisitsUpToOrder(p: Project, startBlock: int)
    ensures multiset(AllVisits(p, startBlock))
         == multiset(FlatMap(VisitsOf, Filter(StartedBy(startBlock), AllSources(p))))
  {
    var active := Filter(StartedBy(startBlock), AllSources(p));
    SortByStartLaws(active, startBlock);
    FlatMapPermutation(VisitsOf, FilteredDs(p, startBlock), active);
  }

  /** The same data source with its handlers in another order. */
  predicate HandlersReordered(ds: DataSource, ds': DataSource) {
    ds.kind == ds'.kind && ds.startBlock == ds'.startBlock && multiset(ds.handlers) == multiset(ds'.handlers)
  }

  lemma {:induction false} HandlerOrderVisits(s: seq<DataSource>, s': seq<DataSource>, startBlock: int)
    requires |s| == |s'| && forall i :: 0 <= i < |s| ==> HandlersReordered(s[i], s'[i])
    ensures multiset(FlatMap(VisitsOf, Filter(StartedBy(startBlock), s)))
         == multiset(FlatMap(VisitsOf, Filter(StartedBy(startBlock), s')))
  {
    if s != [] {
      HandlerOrderVisits(s[1..], s'[1..], startBlock);
      MapPermutation(HandleIn(s[0].kind), s[0].handlers, s'[0].handlers);
      FlatMapConcat(VisitsOf, if Started(s[0], startBlock) then [s[0]] else [], Filter(StartedBy(startBlock), s[1..]));
      FlatMapConcat(VisitsOf, if Started(s'[0], startBlock) then [s'[0]] else [], Filter(StartedBy(startBlock), s'[1..]));
      FlatMapSingle(VisitsOf, s[0]);
      FlatMapSingle(VisitsOf, s'[0]);
    }
  }

  /** `p'` is `p` with its data sources in another order, `q`, and then each one's handlers in another order. */
  predicate Reordered(p: Project, q: seq<DataSource>, p': Project) {
    && multiset(q) == multiset(AllSources(p)) && |q| == |AllSources(p')|
    && forall i :: 0 <= i < |q| ==> HandlersReordered(q[i], AllSources(p')[i])
  }

  lemma {:induction false} ReorderedVisits(p: Project, q: seq<DataSource>, p': Project, startBlock: int)
    requires Reordered(p, q, p')
    ensures multiset(AllVisits(p, startBlock)) == multiset(AllVisits(p', startBlock))
  {
    VisitsUpToOrder(p, startBlock);
    VisitsUpToOrder(p', startBlock);
    FilterPermutation(StartedBy(startBlock), AllSources(p), q);
    FlatMapPermutation(VisitsOf, Filter(StartedBy(startBlock), AllSources(p)), Filter(StartedBy(startBlock), q));
    HandlerOrderVisits(q, AllSources(p'), startBlock);
  }

  /** Reordering the data sources or their handlers changes neither the fallback nor what the query selects. */
  lemma {:induction false} OrderIrrelevant(
    p: Project, q: seq<DataSource>, p': Project, startBlock: int, entity: string, row: Row)
    requires NoThrow(p, startBlock) && Reordered(p, q, p')
    ensures NoThrow(p', startBlock) && Compile(p, startBlock).Ok? && Compile(p', startBlock).Ok?
    ensures Compile(p, startBlock) == Ok([]) <==> Compile(p', startBlock) == Ok([])
    ensures Selects(Compile(p, startBlock).value, entity, row) <==> Selects(Compile(p', startBlock).value, entity, row)
  {
    var vs, vs' := AllVisits(p, startBlock), AllVisits(p', startBlock);
    ReorderedVisits(p, q, p', startBlock);
    forall v ensures v in vs <==> v in vs' {
      SameMultisetMember(vs, vs', v);
    }
    ScanExact(vs);
    ScanExact(vs');
    assert FallsBack(vs) <==> FallsBack(vs');
    if !FallsBack(vs) {
      var es, es' := FlatMap(EntriesAt, vs), FlatMap(EntriesAt, vs');
      FlatMapPermutation(EntriesAt, vs, vs');
      SameMultisetLength(es, es');
      UniqByEmpty(es);
      UniqByEmpty(es');
      forall e ensures e in es <==> e in es' {
        SameMultisetMember(es, es', e);
      }
      UniqByMeaning(es, entity, row);
      UniqByMeaning(es', entity, row);
    }
  }
}
