/** `IndexerManager.indexBlockData`: the nested traversal of a block and what it delivers to handlers. */
module Indexer {
  import opened Seqs
  import opened NearTypes
  import opened Assembly
  import opened WrapBlock

  datatype Item =
    | BlockItem(header: Header)
    | TransactionItem(tx: NearTransaction)
    | ActionItem(action: ActionView)
    | ReceiptItem(receipt: ReceiptView)

  /** One call of `indexData`. */
  datatype Delivery<D> = Delivery(kind: Kind, item: Item, ds: D)

  function KindOf(item: Item): Kind {
    match item
    case BlockItem(_) => Block
    case TransactionItem(_) => Transaction
    case ActionItem(_) => Action
    case ReceiptItem(_) => Receipt
  }

  function ToItem(a: ActionView): Item { ActionItem(a) }

  /** An item goes to every data source, in list order. */
  function Deliver<D>(item: Item, dss: seq<D>): (r: seq<Delivery<D>>)
    ensures |r| == |dss| && forall i :: 0 <= i < |dss| ==> r[i] == Delivery(KindOf(item), item, dss[i])
  {
    seq(|dss|, i requires 0 <= i < |dss| => Delivery(KindOf(item), item, dss[i]))
  }

  function DeliverTo<D>(dss: seq<D>): Item -> seq<Delivery<D>> { item => Deliver(item, dss) }

  function Trace<D>(items: seq<Item>, dss: seq<D>): seq<Delivery<D>> { FlatMap(DeliverTo(dss), items) }

  // The traversal of the source: actions are looked up by id in the flat list.

  function OwnedBy(id: string): ActionView -> bool {
    (a: ActionView) => a.receipt.None? && a.transaction.Some? && a.transaction.value.id == id
  }

  function LinkedTo(id: string): ActionView -> bool {
    (a: ActionView) => a.receipt.Some? && a.receipt.value.receiptId == id
  }

  /** A transaction and the actions looked up for it. */
  function LookedUpTransaction(v: BlockView, tx: NearTransaction): seq<Item> {
    [TransactionItem(tx)] + Map(ToItem, Filter(OwnedBy(tx.id), v.actions))
  }

  function LookedUpReceipt(v: BlockView, r: ReceiptView): seq<Item> {
    [ReceiptItem(r)] + Map(ToItem, Filter(LinkedTo(r.receiptId), v.actions))
  }

  function LookUpReceipts(v: BlockView): ReceiptView -> seq<Item> { r => LookedUpReceipt(v, r) }

  /** One pass of the transaction loop; the receipt loop is inside it. */
  function TransactionPass(v: BlockView): NearTransaction -> seq<Item> {
    tx => LookedUpTransaction(v, tx) + FlatMap(LookUpReceipts(v), v.receipts)
  }

  function NestedItems(v: BlockView): seq<Item> {
    [BlockItem(v.header)] + FlatMap(TransactionPass(v), v.transactions)
  }

  // The direct grouped traversal: every action is reached from the transaction or receipt it came from.

  function GroupTransaction(tx: NearTransaction): seq<Item> {
    [TransactionItem(tx)] + Map(ToItem, TransactionActions(tx))
  }

  function GroupReceipt(w: WrappedReceipt): seq<Item> {
    [ReceiptItem(w.view)] + Map(ToItem, ReceiptActions(w))
  }

  function GroupedPass(ws: seq<WrappedReceipt>): NearTransaction -> seq<Item> {
    tx => GroupTransaction(tx) + FlatMap(GroupReceipt, ws)
  }

  function GroupedItems(header: Header, txs: seq<NearTransaction>, ws: seq<WrappedReceipt>): seq<Item> {
    [BlockItem(header)] + FlatMap(GroupedPass(ws), txs)
  }

  /** The traversal as the source runs it; `delivered` records the handler calls in order. */
  class IndexerManager<D> {
    var delivered: seq<Delivery<D>>

    constructor ()
      ensures delivered == []
    {
      delivered := [];
    }

    method IndexData(kind: Kind, item: Item, ds: D)
      modifies this
      ensures delivered == old(delivered) + [Delivery(kind, item, ds)]
    {
      delivered := delivered + [Delivery(kind, item, ds)];
    }

    method IndexBlockContent(block: NearBlock, dataSources: seq<D>)
      modifies this
      ensures delivered == old(delivered) + Deliver(BlockItem(block.header), dataSources)
    {
      ghost var all := Deliver(BlockItem(block.header), dataSources);
      for i := 0 to |dataSources|
        invariant delivered == old(delivered) + all[..i]
      {
        IndexData(Block, BlockItem(block.header), dataSources[i]);
        TakeSnoc(all, i);
        ConcatAssociative(old(delivered), all[..i], [all[i]]);
      }
      assert all[..|all|] == all;
    }

    method IndexTransaction(transaction: NearTransaction, dataSources: seq<D>)
      modifies this
      ensures delivered == old(delivered) + Deliver(TransactionItem(transaction), dataSources)
    {
      ghost var all := Deliver(TransactionItem(transaction), dataSources);
      for i := 0 to |dataSources|
        invariant delivered == old(delivered) + all[..i]
      {
        IndexData(Transaction, TransactionItem(transaction), dataSources[i]);
        TakeSnoc(all, i);
        ConcatAssociative(old(delivered), all[..i], [all[i]]);
      }
      assert all[..|all|] == all;
    }

    method IndexAction(action: NearAction, dataSources: seq<D>)
      modifies this
      ensures delivered == old(delivered) + Deliver(ActionItem(action.View()), dataSources)
    {
      ghost var all := Deliver(ActionItem(action.View()), dataSources);
      for i := 0 to |dataSources|
        invariant delivered == old(delivered) + all[..i]
      {
        IndexData(Action, ActionItem(action.View()), dataSources[i]);
        TakeSnoc(all, i);
        ConcatAssociative(old(delivered), all[..i], [all[i]]);
      }
      assert all[..|all|] == all;
    }

    method IndexReceipt(receipt: NearTransactionReceipt, dataSources: seq<D>)
      modifies this
      ensures delivered == old(delivered) + Deliver(ReceiptItem(receipt.View()), dataSources)
    {
      ghost var all := Deliver(ReceiptItem(receipt.View()), dataSources);
      for i := 0 to |dataSources|
        invariant delivered == old(delivered) + all[..i]
      {
        IndexData(Receipt, ReceiptItem(receipt.View()), dataSources[i]);
        TakeSnoc(all, i);
        ConcatAssociative(old(delivered), all[..i], [all[i]]);
      }
      assert all[..|all|] == all;
    }

    /** `for (const action of actions) await this.indexAction(...)` */
    method IndexActions(actions: seq<NearAction>, dataSources: seq<D>, ghost views: seq<ActionView>)
      requires Show(actions, views)
      modifies this
      ensures delivered == old(delivered) + Trace(Map(ToItem, views), dataSources)
    {
      for i := 0 to |actions|
        invariant delivered == old(delivered) + Trace(Map(ToItem, views[..i]), dataSources)
      {
        IndexAction(actions[i], dataSources);
        TraceSnoc(Map(ToItem, views[..i]), ToItem(views[i]), dataSources);
        assert Map(ToItem, views[..i + 1]) == Map(ToItem, views[..i]) + [ToItem(views[i])];
      }
      assert views[..|views|] == views;
    }

    /** One pass of the receipt loop. */
    method IndexReceiptPass(block: NearBlock, receipt: NearTransactionReceipt, dataSources: seq<D>, ghost v: BlockView)
      requires block.Presents(v)
      modifies this
      ensures delivered == old(delivered) + Trace(LookedUpReceipt(v, receipt.View()), dataSources)
    {
      IndexReceipt(receipt, dataSources);
      var actions := ActionsOfReceipt(block, receipt.receiptId, v);
      IndexActions(actions, dataSources, Filter(LinkedTo(receipt.receiptId), v.actions));
      TraceCons(ReceiptItem(receipt.View()), Map(ToItem, Filter(LinkedTo(receipt.receiptId), v.actions)), dataSources);
    }

    /** The receipt loop; the source runs it inside the transaction loop. */
    method IndexReceipts(block: NearBlock, dataSources: seq<D>, ghost v: BlockView)
      requires block.Presents(v)
      modifies this
      ensures delivered == old(delivered) + Trace(FlatMap(LookUpReceipts(v), v.receipts), dataSources)
    {
      for i := 0 to |block.receipts|
        invariant delivered == old(delivered) + Trace(FlatMap(LookUpReceipts(v), v.receipts[..i]), dataSources)
      {
        IndexReceiptPass(block, block.receipts[i], dataSources, v);
        TraceConcat(FlatMap(LookUpReceipts(v), v.receipts[..i]), LookedUpReceipt(v, v.receipts[i]), dataSources);
        FlatMapStep(LookUpReceipts(v), v.receipts, i);
      }
      assert v.receipts[..|v.receipts|] == v.receipts;
    }

    /** One pass of the transaction loop. */
    method IndexTransactionPass(block: NearBlock, transaction: NearTransaction, dataSources: seq<D>, ghost v: BlockView)
      requires block.Presents(v) && forall a :: a in v.actions ==> Produced(a)
      modifies this
      ensures delivered == old(delivered) + Trace(TransactionPass(v)(transaction), dataSources)
    {
      IndexTransaction(transaction, dataSources);
      var actions := ActionsOfTransaction(block, transaction.id, v);
      IndexActions(actions, dataSources, Filter(OwnedBy(transaction.id), v.actions));
      TraceCons(TransactionItem(transaction), Map(ToItem, Filter(OwnedBy(transaction.id), v.actions)), dataSources);
      IndexReceipts(block, dataSources, v);
      TraceConcat(LookedUpTransaction(v, transaction), FlatMap(LookUpReceipts(v), v.receipts), dataSources);
    }

    /** `indexBlockData` delivers exactly the trace of the nested traversal. */
    method IndexBlockData(block: NearBlock, dataSources: seq<D>, ghost v: BlockView)
      requires block.Presents(v) && forall a :: a in v.actions ==> Produced(a)
      modifies this
      ensures delivered == old(delivered) + Trace(NestedItems(v), dataSources)
    {
      IndexBlockContent(block, dataSources);
      ghost var first := Deliver(BlockItem(v.header), dataSources);
      for i := 0 to |block.transactions|
        invariant delivered ==
          old(delivered) + (first + Trace(FlatMap(TransactionPass(v), v.transactions[..i]), dataSources))
      {
        IndexTransactionPass(block, block.transactions[i], dataSources, v);
        TraceConcat(FlatMap(TransactionPass(v), v.transactions[..i]), TransactionPass(v)(v.transactions[i]), dataSources);
        FlatMapStep(TransactionPass(v), v.transactions, i);
      }
      assert v.transactions[..|v.transactions|] == v.transactions;
      TraceCons(BlockItem(v.header), FlatMap(TransactionPass(v), v.transactions), dataSources);
    }
  }

  /** `block.actions.filter(...)` for a transaction; an action without a receipt must have a transaction. */
  method ActionsOfTransaction(block: NearBlock, id: string, ghost v: BlockView) returns (r: seq<NearAction>)
    requires block.Presents(v) && forall a :: a in v.actions ==> Produced(a)
    ensures Show(r, Filter(OwnedBy(id), v.actions))
  {
    r := [];
    for i := 0 to |block.actions|
      invariant Show(r, Filter(OwnedBy(id), v.actions[..i]))
    {
      var action := block.actions[i];
      assert action.View() == v.actions[i] && v.actions[i] in v.actions;
      if action.receipt == null && action.transaction.value.id == id {
        r := r + [action];
      }
      FilterStep(OwnedBy(id), v.actions, i);
    }
    assert v.actions[..|v.actions|] == v.actions;
  }

  /** `block.actions.filter(...)` for a receipt. */
  method ActionsOfReceipt(block: NearBlock, id: string, ghost v: BlockView) returns (r: seq<NearAction>)
    requires block.Presents(v)
    ensures Show(r, Filter(LinkedTo(id), v.actions))
  {
    r := [];
    for i := 0 to |block.actions|
      invariant Show(r, Filter(LinkedTo(id), v.actions[..i]))
    {
      var action := block.actions[i];
      assert action.View() == v.actions[i];
      if action.receipt != null && action.receipt.receiptId == id {
        r := r + [action];
      }
      FilterStep(LinkedTo(id), v.actions, i);
    }
    assert v.actions[..|v.actions|] == v.actions;
  }

  lemma {:induction false} TraceConcat<D>(s: seq<Item>, t: seq<Item>, dss: seq<D>)
    ensures Trace(s + t, dss) == Trace(s, dss) + Trace(t, dss)
  {
    FlatMapConcat(DeliverTo(dss), s, t);
  }

  lemma {:induction false} TraceSnoc<D>(s: seq<Item>, item: Item, dss: seq<D>)
    ensures Trace(s + [item], dss) == Trace(s, dss) + Deliver(item, dss)
  {
    FlatMapSnoc(DeliverTo(dss), s, item);
  }

  lemma {:induction false} TraceCons<D>(item: Item, s: seq<Item>, dss: seq<D>)
    ensures Trace([item] + s, dss) == Deliver(item, dss) + Trace(s, dss)
  {
    FlatMapConcat(DeliverTo(dss), [item], s);
    FlatMapSingle(DeliverTo(dss), item);
  }
}
