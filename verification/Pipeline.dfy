/** From the dictionary to the handlers: nothing a handler would have been given lies in a block that was skipped. */
module Pipeline {
  import opened Seqs
  import opened NearTypes
  import opened Filters
  import opened QueryEntries
  import opened ProjectModel
  import opened Dictionary
  import opened DictionaryLaws
  import opened Indexer
  import Assembly

  /** The run-time filter of a handler applied to a delivered item; a block's timestamp check can only reject more. */
  predicate HandlerTakes(h: Handler, item: Item) {
    h.kind == Base(KindOf(item)) &&
    var fields := if h.filter.None? then None else Some(FieldsOf(h.filter.value));
    match item
    case BlockItem(header) =>
      FilterBlockModulo(header.height, if h.filter.Some? && h.filter.value.OnBlock? then h.filter.value.modulo else None)
    case TransactionItem(tx) => FilterTransaction(tx, fields)
    case ActionItem(a) => FilterAction(a, fields)
    case ReceiptItem(r) => FilterReceipt(r, fields)
  }

  /** The traversal visits only items of the block. */
  predicate InBlock(v: BlockView, item: Item) {
    match item
    case BlockItem(header) => header == v.header
    case TransactionItem(tx) => tx in v.transactions
    case ActionItem(a) => a in v.actions
    case ReceiptItem(r) => r in v.receipts
  }

  lemma {:induction false} VisitedInBlock(v: BlockView, item: Item)
    requires item in NestedItems(v)
    ensures InBlock(v, item)
  {
    if item != BlockItem(v.header) {
      assert item in FlatMap(TransactionPass(v), v.transactions);
      FlatMapMember(TransactionPass(v), v.transactions, item);
      var tx :| tx in v.transactions && item in TransactionPass(v)(tx);
      if item !in LookedUpTransaction(v, tx) {
        FlatMapMember(LookUpReceipts(v), v.receipts, item);
      }
    }
  }

  /** Only deliveries of visited items, to listed data sources, under the kind of the item. */
  lemma {:induction false} DeliveredWasVisited<D>(items: seq<Item>, dss: seq<D>, d: Delivery<D>)
    requires d in Trace(items, dss)
    ensures d.item in items && d.ds in dss
    ensures d.kind == (match d.item
      case BlockItem(_) => Block
      case TransactionItem(_) => Transaction
      case ActionItem(_) => Action
      case ReceiptItem(_) => Receipt)
  {
    FlatMapMember(DeliverTo(dss), items, d);
  }

  /**
   * End to end: take any event order of `wrapBlock`, and any handler call `indexBlockData` then makes for a runtime
   * data source, static or dynamic, whose filter takes the item. If the dictionary query was compiled at
   * `startBlock` and no source starts after `startBlock` up to this block, then the block was not skipped. Only
   * block handlers must belong to a static source.
   */
  lemma {:induction false} TakenIsNotSkipped(
    p: Project, startBlock: int, entries: seq<Entry>,
    b: BlockResult, sched: seq<Assembly.Event>, d: Delivery<DataSource>, h: Handler)
    requires Compile(p, startBlock) == Ok(entries)
    requires startBlock <= b.header.height
    requires forall ds :: ds in AllSources(p) && Started(ds, b.header.height) ==> Started(ds, startBlock)
    requires Assembly.Valid(b, sched)
    requires d in Trace(NestedItems(Assembly.Content(b, Assembly.Run(b, sched))), GetAllDataSources(p, b.header.height))
    requires d.ds.kind.Runtime? && h in d.ds.handlers && HandlerTakes(h, d.item)
    requires h.kind == Base(Block) ==> d.ds in p.dataSources
    requires h.filter.Some? ==> Faithful(h.kind.kind, h.filter.value)
    ensures Visited(p, entries, Assembly.Content(b, Assembly.Run(b, sched)))
  {
    var v := Assembly.Content(b, Assembly.Run(b, sched));
    DeliveredWasVisited(NestedItems(v), GetAllDataSources(p, b.header.height), d);
    VisitedInBlock(v, d.item);
    forall a | a in v.actions ensures Produced(a) {
      Assembly.Ownership(b, sched, a);
    }
    assert Accepts(h.kind.kind, h.filter, v);
    DictionarySoundAt(p, startBlock, entries, d.ds, h, v);
  }
}
