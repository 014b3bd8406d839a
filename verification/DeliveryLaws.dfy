/** What `indexBlockData` delivers on assembled blocks: grouping, counts, independence of the schedule. */
module DeliveryLaws {
  import opened Seqs
  import opened NearTypes
  import opened Assembly
  import opened Indexer
  import W = WrapBlock

  function IdOf(tx: NearTransaction): string { tx.id }

  function ReceiptIdOf(w: WrappedReceipt): string { w.view.receiptId }

  /** The invariant block assembly establishes and the traversal relies on. */
  predicate Assembled(v: BlockView, ws: seq<WrappedReceipt>) {
    && Filter(HasNoReceipt, v.actions) == FlatMap(TransactionActions, v.transactions)
    && Filter(HasReceipt, v.actions) == FlatMap(ReceiptActions, ws)
    && v.receipts == Map(ViewOf, ws)
  }

  /** An id shared by two positions is harmless only when neither carries anything to look up. */
  predicate ClashFree<A, B(==)>(key: A -> string, group: A -> seq<B>, xs: seq<A>) {
    forall i, j :: 0 <= i < |xs| && 0 <= j < |xs| && i != j && key(xs[i]) == key(xs[j]) ==> group(xs[i]) == []
  }

  /** Looking up key `k` finds nothing exactly when no element with that key carries anything. */
  lemma {:induction false} LookupNothing<A, B>(
    key: A -> string, group: A -> seq<B>, p: B -> bool, xs: seq<A>, k: string)
    requires forall x, y :: x in xs && y in group(x) ==> (p(y) <==> key(x) == k)
    ensures Filter(p, FlatMap(group, xs)) == [] <==> forall x :: x in xs && key(x) == k ==> group(x) == []
  {
    var found := Filter(p, FlatMap(group, xs));
    if found != [] {
      var y := found[0];
      assert y in found;
      FlatMapMember(group, xs, y);
    }
    forall x | x in xs && key(x) == k && group(x) != [] ensures found != [] {
      var y := group(x)[0];
      assert y in group(x);
      FlatMapMember(group, xs, y);
      assert y in found;
    }
  }

  /** Looking up the key of position `i` finds at least its own group, and exactly it when no other position clashes. */
  lemma {:induction false} LookupGroup<A, B>(key: A -> string, group: A -> seq<B>, p: B -> bool, xs: seq<A>, i: nat)
    requires i < |xs|
    requires forall x, y :: x in xs && y in group(x) ==> (p(y) <==> key(x) == key(xs[i]))
    ensures var found := Filter(p, FlatMap(group, xs));
      && |found| >= |group(xs[i])|
      && (|found| == |group(xs[i])| ==> found == group(xs[i]))
      && (found == group(xs[i]) <==>
            forall j :: 0 <= j < |xs| && j != i && key(xs[j]) == key(xs[i]) ==> group(xs[j]) == [])
  {
    var k, lo, hi := key(xs[i]), xs[..i], xs[i + 1..];
    FlatMapAt(group, xs, i);
    FilterConcat(p, FlatMap(group, lo) + group(xs[i]), FlatMap(group, hi));
    FilterConcat(p, FlatMap(group, lo), group(xs[i]));
    FilterAll(p, group(xs[i]));
    LookupNothing(key, group, p, lo, k);
    LookupNothing(key, group, p, hi, k);
    forall j | 0 <= j < |xs| && j != i
      ensures if j < i then xs[j] in lo else xs[j] in hi
    {
      assert if j < i then lo[j] == xs[j] else hi[j - i - 1] == xs[j];
    }
    forall x | x in lo ensures exists j :: 0 <= j < i && xs[j] == x {
      var j :| 0 <= j < |lo| && lo[j] == x;
      assert xs[j] == x;
    }
    forall x | x in hi ensures exists j :: i < j < |xs| && xs[j] == x {
      var j :| 0 <= j < |hi| && hi[j] == x;
      assert xs[i + 1 + j] == x;
    }
  }

  lemma {:induction false} LookupTransaction(v: BlockView, ws: seq<WrappedReceipt>, i: nat)
    requires Assembled(v, ws) && i < |v.transactions|
    ensures var found := Filter(OwnedBy(v.transactions[i].id), v.actions);
      var group := TransactionActions(v.transactions[i]);
      && |found| >= |group|
      && (|found| == |group| ==> found == group)
      && (found == group <==>
            forall j :: 0 <= j < |v.transactions| && j != i && IdOf(v.transactions[j]) == IdOf(v.transactions[i])
              ==> TransactionActions(v.transactions[j]) == [])
  {
    var p := OwnedBy(v.transactions[i].id);
    FilterFilter(HasNoReceipt, p, p, v.actions);
    LookupGroup(IdOf, TransactionActions, p, v.transactions, i);
  }

  lemma {:induction false} LookupReceipt(v: BlockView, ws: seq<WrappedReceipt>, i: nat)
    requires Assembled(v, ws) && i < |ws|
    ensures var found := Filter(LinkedTo(ws[i].view.receiptId), v.actions);
      var group := ReceiptActions(ws[i]);
      && |found| >= |group|
      && (|found| == |group| ==> found == group)
      && (found == group <==>
            forall j :: 0 <= j < |ws| && j != i && ReceiptIdOf(ws[j]) == ReceiptIdOf(ws[i])
              ==> ReceiptActions(ws[j]) == [])
  {
    var p := LinkedTo(ws[i].view.receiptId);
    FilterFilter(HasReceipt, p, p, v.actions);
    LookupGroup(ReceiptIdOf, ReceiptActions, p, ws, i);
  }

  function LookUpWrapped(v: BlockView): WrappedReceipt -> seq<Item> {
    (w: WrappedReceipt) => LookedUpReceipt(v, w.view)
  }

  lemma {:induction false} ReceiptLoopOverWrapped(v: BlockView, ws: seq<WrappedReceipt>)
    ensures FlatMap(LookUpReceipts(v), Map(ViewOf, ws)) == FlatMap(LookUpWrapped(v), ws)
  {
    if ws != [] {
      ReceiptLoopOverWrapped(v, ws[1..]);
      assert Map(ViewOf, ws)[1..] == Map(ViewOf, ws[1..]);
    }
  }

  /** The receipt loop yields the grouped pass exactly when no two receipts clash; it never yields less. */
  lemma {:induction false} ReceiptLoopExact(v: BlockView, ws: seq<WrappedReceipt>)
    requires Assembled(v, ws)
    ensures |FlatMap(LookUpReceipts(v), v.receipts)| >= |FlatMap(GroupReceipt, ws)|
    ensures |FlatMap(LookUpReceipts(v), v.receipts)| == |FlatMap(GroupReceipt, ws)| ==>
      ClashFree(ReceiptIdOf, ReceiptActions, ws)
    ensures ClashFree(ReceiptIdOf, ReceiptActions, ws) ==>
      FlatMap(LookUpReceipts(v), v.receipts) == FlatMap(GroupReceipt, ws)
  {
    ReceiptLoopOverWrapped(v, ws);
    forall w | w in ws ensures |LookUpWrapped(v)(w)| >= |GroupReceipt(w)| {
      var i :| 0 <= i < |ws| && ws[i] == w;
      LookupReceipt(v, ws, i);
    }
    LengthSqueeze(LookUpWrapped(v), GroupReceipt, ws);
    if |FlatMap(LookUpReceipts(v), v.receipts)| == |FlatMap(GroupReceipt, ws)| {
      forall i, j | 0 <= i < |ws| && 0 <= j < |ws| && i != j && ReceiptIdOf(ws[i]) == ReceiptIdOf(ws[j])
        ensures ReceiptActions(ws[i]) == []
      {
        LookupReceipt(v, ws, j);
        assert |LookUpWrapped(v)(ws[j])| == |GroupReceipt(ws[j])|;
      }
    }
    if ClashFree(ReceiptIdOf, ReceiptActions, ws) {
      forall w | w in ws ensures LookUpWrapped(v)(w) == GroupReceipt(w) {
        var i :| 0 <= i < |ws| && ws[i] == w;
        LookupReceipt(v, ws, i);
      }
      FlatMapAgree(LookUpWrapped(v), GroupReceipt, ws);
    }
  }

  /**
   * Whatever transaction or receipt shares its id with another one carries no actions; receipts only matter
   * when there is a transaction whose pass visits them.
   */
  predicate Unambiguous(txs: seq<NearTransaction>, ws: seq<WrappedReceipt>) {
    && ClashFree(IdOf, TransactionActions, txs)
    && (txs == [] || ClashFree(ReceiptIdOf, ReceiptActions, ws))
  }

  lemma {:induction false} PassesAtLeastGrouped(v: BlockView, ws: seq<WrappedReceipt>)
    requires Assembled(v, ws)
    ensures forall tx :: tx in v.transactions ==> |TransactionPass(v)(tx)| >= |GroupedPass(ws)(tx)|
    ensures |NestedItems(v)| >= |GroupedItems(v.header, v.transactions, ws)|
  {
    ReceiptLoopExact(v, ws);
    forall tx | tx in v.transactions ensures |TransactionPass(v)(tx)| >= |GroupedPass(ws)(tx)| {
      var i :| 0 <= i < |v.transactions| && v.transactions[i] == tx;
      LookupTransaction(v, ws, i);
    }
    LengthSqueeze(TransactionPass(v), GroupedPass(ws), v.transactions);
  }

  lemma {:induction false} EqualLengthIsUnambiguous(v: BlockView, ws: seq<WrappedReceipt>)
    requires Assembled(v, ws) && |NestedItems(v)| == |GroupedItems(v.header, v.transactions, ws)|
    ensures Unambiguous(v.transactions, ws)
  {
    var txs := v.transactions;
    ReceiptLoopExact(v, ws);
    PassesAtLeastGrouped(v, ws);
    LengthSqueeze(TransactionPass(v), GroupedPass(ws), txs);
    forall i, j | 0 <= i < |txs| && 0 <= j < |txs| && i != j && IdOf(txs[i]) == IdOf(txs[j])
      ensures TransactionActions(txs[i]) == []
    {
      LookupTransaction(v, ws, j);
      assert |TransactionPass(v)(txs[j])| == |GroupedPass(ws)(txs[j])|;
    }
    if txs != [] {
      LookupTransaction(v, ws, 0);
      assert |TransactionPass(v)(txs[0])| == |GroupedPass(ws)(txs[0])|;
    }
  }

  /**
   * On an assembled block the traversal by id equals the direct grouped traversal if and only if no
   * transaction that shares its outcome id carries actions and, when the receipt loop runs at all, no receipt
   * that shares its id does. Otherwise it is strictly longer.
   */
  lemma {:induction false} RegroupExact(v: BlockView, ws: seq<WrappedReceipt>)
    requires Assembled(v, ws)
    ensures NestedItems(v) == GroupedItems(v.header, v.transactions, ws) <==> Unambiguous(v.transactions, ws)
    ensures |NestedItems(v)| >= |GroupedItems(v.header, v.transactions, ws)|
    ensures |NestedItems(v)| == |GroupedItems(v.header, v.transactions, ws)| <==> Unambiguous(v.transactions, ws)
  {
    var txs := v.transactions;
    PassesAtLeastGrouped(v, ws);
    if |NestedItems(v)| == |GroupedItems(v.header, txs, ws)| {
      EqualLengthIsUnambiguous(v, ws);
    }
    if Unambiguous(txs, ws) {
      ReceiptLoopExact(v, ws);
      forall tx | tx in txs ensures TransactionPass(v)(tx) == GroupedPass(ws)(tx) {
        var i :| 0 <= i < |txs| && txs[i] == tx;
        LookupTransaction(v, ws, i);
      }
      FlatMapAgree(TransactionPass(v), GroupedPass(ws), txs);
    }
  }

  /** Outcome ids and receipt ids are distinct within the block. */
  predicate DistinctIds(txs: seq<NearTransaction>, ws: seq<WrappedReceipt>) {
    NoDup(Map(IdOf, txs)) && NoDup(Map(ReceiptIdOf, ws))
  }

  lemma {:induction false} DistinctIsClashFree<A, B>(key: A -> string, group: A -> seq<B>, xs: seq<A>)
    requires NoDup(Map(key, xs))
    ensures ClashFree(key, group, xs)
  {
    forall i, j | 0 <= i < |xs| && 0 <= j < |xs| && i != j ensures key(xs[i]) != key(xs[j]) {
      assert Map(key, xs)[i] == key(xs[i]) && Map(key, xs)[j] == key(xs[j]);
    }
  }

  /** Every block an interleaving of `wrapBlock` reaches is assembled. */
  lemma {:induction false} ReachableIsAssembled(b: BlockResult, sched: seq<Event>)
    requires Valid(b, sched)
    ensures Assembled(Content(b, Run(b, sched)), Originals(b, sched))
  {
    ActionsPartition(b, sched);
  }

  /** Regrouping refinement: on every reachable block with distinct ids the traversal by id is the grouped one. */
  lemma {:induction false} Regroup(b: BlockResult, sched: seq<Event>)
    requires Valid(b, sched) && DistinctIds(Run(b, sched).transactions, Originals(b, sched))
    ensures NestedItems(Content(b, Run(b, sched)))
         == GroupedItems(b.header, Run(b, sched).transactions, Originals(b, sched))
  {
    var v, ws := Content(b, Run(b, sched)), Originals(b, sched);
    ReachableIsAssembled(b, sched);
    DistinctIsClashFree(IdOf, TransactionActions, v.transactions);
    DistinctIsClashFree(ReceiptIdOf, ReceiptActions, ws);
    RegroupExact(v, ws);
  }

  // The order of the deliveries.

  /** `items` are the actions of the block that `wanted` asks for, each once per position and in order. */
  ghost predicate Lists(actions: seq<ActionView>, wanted: set<nat>, items: seq<Item>) {
    exists at: seq<nat> :: ListedAt(actions, wanted, items, at)
  }

  ghost predicate ListedAt(actions: seq<ActionView>, wanted: set<nat>, items: seq<Item>, at: seq<nat>) {
    && |at| == |items| && Increasing(at)
    && (forall i :: 0 <= i < |at| ==> at[i] < |actions| && items[i] == ActionItem(actions[at[i]]))
    && (forall k: nat :: k < |actions| ==> (k in at <==> k in wanted))
  }

  /** Positions of actions that have no receipt and whose transaction has the outcome id. */
  function WithoutReceipt(actions: seq<ActionView>, id: string): set<nat> {
    set k: nat | k < |actions|
      && actions[k].receipt == None && actions[k].transaction.Some? && actions[k].transaction.value.id == id
  }

  /** Positions of actions linked to a receipt with the id. */
  function WithReceipt(actions: seq<ActionView>, id: string): set<nat> {
    set k: nat | k < |actions| && actions[k].receipt.Some? && actions[k].receipt.value.receiptId == id
  }

  /** The receipt loop: receipt by receipt, each followed by the actions linked to its id. */
  ghost predicate IsLoop(v: BlockView, parts: seq<seq<Item>>) {
    && |parts| == |v.receipts|
    && forall i :: 0 <= i < |parts| ==>
         && parts[i] != [] && parts[i][0] == ReceiptItem(v.receipts[i])
         && Lists(v.actions, WithReceipt(v.actions, v.receipts[i].receiptId), parts[i][1..])
  }

  /** One pass of the transaction loop: the transaction, its actions, then the whole receipt loop. */
  ghost predicate IsPass(v: BlockView, tx: NearTransaction, pass: seq<Item>, loop: seq<Item>) {
    && pass != [] && pass[0] == TransactionItem(tx) && |loop| < |pass|
    && pass[|pass| - |loop|..] == loop
    && Lists(v.actions, WithoutReceipt(v.actions, tx.id), pass[1..|pass| - |loop|])
  }

  lemma {:induction false} LookupLists(v: BlockView, p: ActionView -> bool, wanted: set<nat>)
    requires forall k: nat :: k < |v.actions| ==> (p(v.actions[k]) <==> k in wanted)
    ensures Lists(v.actions, wanted, Map(ToItem, Filter(p, v.actions)))
  {
    var at := FilterPositions(p, v.actions);
    assert ListedAt(v.actions, wanted, Map(ToItem, Filter(p, v.actions)), at);
  }

  lemma {:induction false} PassIsPass(v: BlockView, tx: NearTransaction)
    ensures IsPass(v, tx, TransactionPass(v)(tx), FlatMap(LookUpReceipts(v), v.receipts))
  {
    var own, loop := Map(ToItem, Filter(OwnedBy(tx.id), v.actions)), FlatMap(LookUpReceipts(v), v.receipts);
    var pass := TransactionPass(v)(tx);
    LookupLists(v, OwnedBy(tx.id), WithoutReceipt(v.actions, tx.id));
    assert pass == [TransactionItem(tx)] + own + loop;
    assert pass[1..|pass| - |loop|] == own;
  }

  lemma {:induction false} LoopIsLoop(v: BlockView)
    ensures IsLoop(v, Map(LookUpReceipts(v), v.receipts))
  {
    var parts := Map(LookUpReceipts(v), v.receipts);
    forall i | 0 <= i < |parts|
      ensures parts[i] != [] && parts[i][0] == ReceiptItem(v.receipts[i])
      ensures Lists(v.actions, WithReceipt(v.actions, v.receipts[i].receiptId), parts[i][1..])
    {
      var id := v.receipts[i].receiptId;
      LookupLists(v, LinkedTo(id), WithReceipt(v.actions, id));
      assert parts[i][1..] == Map(ToItem, Filter(LinkedTo(id), v.actions));
    }
  }

  /**
   * The traversal position by position, on any block: the block; then for each transaction in order the
   * transaction, its actions without a receipt in block order, and the same receipt loop every time.
   */
  lemma {:induction false} TraversalOrder(v: BlockView) returns (passes: seq<seq<Item>>, loop: seq<seq<Item>>)
    ensures NestedItems(v) == [BlockItem(v.header)] + Flatten(passes)
    ensures |passes| == |v.transactions| && IsLoop(v, loop)
    ensures forall i :: 0 <= i < |passes| ==> IsPass(v, v.transactions[i], passes[i], Flatten(loop))
  {
    passes, loop := Map(TransactionPass(v), v.transactions), Map(LookUpReceipts(v), v.receipts);
    FlattenMap(TransactionPass(v), v.transactions);
    FlattenMap(LookUpReceipts(v), v.receipts);
    LoopIsLoop(v);
    forall i | 0 <= i < |passes| ensures IsPass(v, v.transactions[i], passes[i], Flatten(loop)) {
      PassIsPass(v, v.transactions[i]);
    }
  }

  /** The call for `item` and `ds`, under the handler kind of the item. */
  predicate IsCall<D(==)>(d: Delivery<D>, item: Item, ds: D) {
    && d.item == item && d.ds == ds
    && (item.BlockItem? ==> d.kind == Block) && (item.TransactionItem? ==> d.kind == Transaction)
    && (item.ActionItem? ==> d.kind == Action) && (item.ReceiptItem? ==> d.kind == Receipt)
  }

  /** Call number `i * |dss| + j` of a trace is for item `i` and data source `j`. */
  lemma {:induction false} TraceAt<D>(items: seq<Item>, dss: seq<D>, i: nat, j: nat)
    requires i < |items| && j < |dss|
    ensures |Trace(items, dss)| == |dss| * |items|
    ensures 0 <= i * |dss| + j < |Trace(items, dss)|
    ensures IsCall(Trace(items, dss)[i * |dss| + j], items[i], dss[j])
  {
    TraceLength(items, dss);
    TraceCons(items[0], items[1..], dss);
    assert items == [items[0]] + items[1..];
    if i > 0 {
      TraceAt(items[1..], dss, i - 1, j);
      TraceLength(items[1..], dss);
      MulSucc(i - 1, |dss|);
      var n := |dss|;
      assert |Deliver(items[0], dss)| == n && i * n + j == n + ((i - 1) * n + j);
      assert Trace(items, dss)[i * n + j] == Trace(items[1..], dss)[(i - 1) * n + j];
    } else {
      assert |dss| * |items| >= |dss|;
      assert Trace(items, dss)[j] == Deliver(items[0], dss)[j];
    }
  }

  // Delivery counts.

  lemma {:induction false} DeliverCount<D>(item: Item, dss: seq<D>, other: Item, ds: D)
    ensures multiset(Deliver(item, dss))[Delivery(KindOf(other), other, ds)] ==
      if item == other then multiset(dss)[ds] else 0
  {
    if dss == [] {
      assert Deliver(item, dss) == [];
    } else {
      DeliverCount(item, dss[1..], other, ds);
      assert Deliver(item, dss)[1..] == Deliver(item, dss[1..]);
      CountCons(Deliver(item, dss), Delivery(KindOf(other), other, ds));
      CountCons(dss, ds);
    }
  }

  /** Each item is delivered to each data source as often as the two occur. */
  lemma {:induction false} TraceCount<D>(items: seq<Item>, dss: seq<D>, item: Item, ds: D)
    ensures multiset(Trace(items, dss))[Delivery(KindOf(item), item, ds)] == multiset(items)[item] * multiset(dss)[ds]
  {
    if items != [] {
      TraceCount(items[1..], dss, item, ds);
      DeliverCount(items[0], dss, item, ds);
      CountCons(items, item);
      CountConcat(Deliver(items[0], dss), Trace(items[1..], dss), Delivery(KindOf(item), item, ds));
      MulSucc(multiset(items[1..])[item], multiset(dss)[ds]);
    }
  }

  lemma {:induction false} TraceLength<D>(items: seq<Item>, dss: seq<D>)
    ensures |Trace(items, dss)| == |dss| * |items|
  {
    if items != [] {
      TraceLength(items[1..], dss);
      assert items == [items[0]] + items[1..];
      TraceCons(items[0], items[1..], dss);
      assert |dss| * (|items[1..]| + 1) == |dss| * |items[1..]| + |dss|;
    }
  }

  // How often the traversal visits an item, on any block and with any ids.

  function OwnItems(v: BlockView): NearTransaction -> seq<Item> { tx => LookedUpTransaction(v, tx) }

  function HasId(id: string): NearTransaction -> bool { (tx: NearTransaction) => tx.id == id }

  function HasReceiptId(id: string): ReceiptView -> bool { (r: ReceiptView) => r.receiptId == id }

  lemma {:induction false} ToItemCount(s: seq<ActionView>, item: Item)
    ensures multiset(Map(ToItem, s))[item] == if item.ActionItem? then multiset(s)[item.action] else 0
  {
    if s != [] {
      ToItemCount(s[1..], item);
      assert Map(ToItem, s)[1..] == Map(ToItem, s[1..]);
      CountCons(Map(ToItem, s), item);
      if item.ActionItem? {
        CountCons(s, item.action);
      }
    }
  }

  /** The visits of the transaction loop outside its receipt loop. */
  function OwnVisits(v: BlockView, txs: seq<NearTransaction>, item: Item): nat {
    match item
    case TransactionItem(tx) => multiset(txs)[tx]
    case ActionItem(a) =>
      if a.receipt.None? && a.transaction.Some?
      then |Filter(HasId(a.transaction.value.id), txs)| * multiset(v.actions)[a]
      else 0
    case _ => 0
  }

  /** The visits of one run of the receipt loop. */
  function LoopVisits(v: BlockView, rs: seq<ReceiptView>, item: Item): nat {
    match item
    case ReceiptItem(r) => multiset(rs)[r]
    case ActionItem(a) =>
      if a.receipt.Some? then |Filter(HasReceiptId(a.receipt.value.receiptId), rs)| * multiset(v.actions)[a] else 0
    case _ => 0
  }

  /** What looking up one head adds to the visits of an item. */
  function HeadVisits(v: BlockView, head: Item, p: ActionView -> bool, item: Item): nat {
    if item == head then 1
    else if item.ActionItem? && p(item.action) then multiset(v.actions)[item.action]
    else 0
  }

  lemma {:induction false} LookedUpCount(head: Item, p: ActionView -> bool, v: BlockView, item: Item)
    requires !head.ActionItem?
    ensures multiset([head] + Map(ToItem, Filter(p, v.actions)))[item] == HeadVisits(v, head, p, item)
  {
    var found := Filter(p, v.actions);
    CountConcat([head], Map(ToItem, found), item);
    ToItemCount(found, item);
    if item.ActionItem? {
      FilterCount(p, v.actions, item.action);
    }
  }

  lemma {:induction false} OwnVisitsStep(v: BlockView, txs: seq<NearTransaction>, item: Item)
    requires txs != []
    ensures OwnVisits(v, txs, item)
         == HeadVisits(v, TransactionItem(txs[0]), OwnedBy(txs[0].id), item) + OwnVisits(v, txs[1..], item)
  {
    if item.TransactionItem? {
      CountCons(txs, item.tx);
    } else if item.ActionItem? && item.action.receipt.None? && item.action.transaction.Some? {
      var p := HasId(item.action.transaction.value.id);
      FilterLength(p, txs);
      MulSucc(|Filter(p, txs[1..])|, multiset(v.actions)[item.action]);
    }
  }

  lemma {:induction false} LoopVisitsStep(v: BlockView, rs: seq<ReceiptView>, item: Item)
    requires rs != []
    ensures LoopVisits(v, rs, item)
         == HeadVisits(v, ReceiptItem(rs[0]), LinkedTo(rs[0].receiptId), item) + LoopVisits(v, rs[1..], item)
  {
    if item.ReceiptItem? {
      CountCons(rs, item.receipt);
    } else if item.ActionItem? && item.action.receipt.Some? {
      var p := HasReceiptId(item.action.receipt.value.receiptId);
      FilterLength(p, rs);
      MulSucc(|Filter(p, rs[1..])|, multiset(v.actions)[item.action]);
    }
  }

  lemma {:induction false} OwnCount(v: BlockView, txs: seq<NearTransaction>, item: Item)
    ensures multiset(FlatMap(OwnItems(v), txs))[item] == OwnVisits(v, txs, item)
  {
    if txs != [] {
      OwnCount(v, txs[1..], item);
      FlatMapCount(OwnItems(v), txs, item);
      LookedUpCount(TransactionItem(txs[0]), OwnedBy(txs[0].id), v, item);
      OwnVisitsStep(v, txs, item);
    }
  }

  lemma {:induction false} LoopCount(v: BlockView, rs: seq<ReceiptView>, item: Item)
    ensures multiset(FlatMap(LookUpReceipts(v), rs))[item] == LoopVisits(v, rs, item)
  {
    if rs != [] {
      LoopCount(v, rs[1..], item);
      FlatMapCount(LookUpReceipts(v), rs, item);
      LookedUpCount(ReceiptItem(rs[0]), LinkedTo(rs[0].receiptId), v, item);
      LoopVisitsStep(v, rs, item);
    }
  }

  /** How often one data source sees an item: the receipt loop runs once per transaction. */
  function Visits(v: BlockView, item: Item): nat {
    (if item == BlockItem(v.header) then 1 else 0)
    + OwnVisits(v, v.transactions, item) + |v.transactions| * LoopVisits(v, v.receipts, item)
  }

  lemma {:induction false} NestedCount(v: BlockView, item: Item)
    ensures multiset(NestedItems(v))[item] == Visits(v, item)
  {
    var loop := FlatMap(LookUpReceipts(v), v.receipts);
    OwnCount(v, v.transactions, item);
    LoopCount(v, v.receipts, item);
    FlatMapRepeat(TransactionPass(v), OwnItems(v), loop, v.transactions, item);
    CountConcat([BlockItem(v.header)], FlatMap(TransactionPass(v), v.transactions), item);
  }

  /**
   * The exact number of calls, for any block and any ids: a transaction action is delivered once per transaction
   * with its owner's outcome id, a receipt action once per transaction and receipt with its owner's id.
   */
  lemma {:induction false} DeliveryCountsExact<D>(v: BlockView, dss: seq<D>, item: Item, ds: D)
    ensures multiset(Trace(NestedItems(v), dss))[Delivery(KindOf(item), item, ds)]
         == Visits(v, item) * multiset(dss)[ds]
  {
    NestedCount(v, item);
    TraceCount(NestedItems(v), dss, item, ds);
  }

  // Lengths.

  lemma {:induction false} PassLength(txs: seq<NearTransaction>, ws: seq<WrappedReceipt>)
    ensures |FlatMap(GroupedPass(ws), txs)|
         == |txs| + |FlatMap(TransactionActions, txs)| + |txs| * (|ws| + |FlatMap(ReceiptActions, ws)|)
  {
    ReceiptPassLength(ws);
    if txs != [] {
      PassLength(txs[1..], ws);
      MulSucc(|txs[1..]|, |ws| + |FlatMap(ReceiptActions, ws)|);
      FlatMapLength(GroupedPass(ws), txs);
      FlatMapLength(TransactionActions, txs);
    }
  }

  lemma {:induction false} ReceiptPassLength(ws: seq<WrappedReceipt>)
    ensures |FlatMap(GroupReceipt, ws)| == |ws| + |FlatMap(ReceiptActions, ws)|
  {
    if ws != [] {
      ReceiptPassLength(ws[1..]);
    }
  }

  // With distinct ids.

  /** How often one data source sees an item of a block with distinct ids. */
  function TimesDelivered(v: BlockView, item: Item): nat {
    match item
    case BlockItem(header) => if header == v.header then 1 else 0
    case TransactionItem(tx) => if tx in v.transactions then 1 else 0
    case ActionItem(a) => if a !in v.actions then 0 else if a.receipt.None? then 1 else |v.transactions|
    case ReceiptItem(r) => if r in v.receipts then |v.transactions| else 0
  }

  /** Among transactions with distinct ids one id names one transaction, and an action occurs once. */
  lemma {:induction false} DistinctTransactionVisits(v: BlockView, ws: seq<WrappedReceipt>, item: Item)
    requires Assembled(v, ws) && NoDup(Map(IdOf, v.transactions))
    requires item.TransactionItem? || (item.ActionItem? && HasNoReceipt(item.action))
    ensures OwnVisits(v, v.transactions, item) == TimesDelivered(v, item)
  {
    var txs := v.transactions;
    if item.TransactionItem? {
      KeysNoDup(IdOf, txs);
      NoDupCount(txs, item.tx);
    } else {
      var a := item.action;
      FilterCount(HasNoReceipt, v.actions, a);
      TransactionActionsNoDup(txs);
      NoDupCount(FlatMap(TransactionActions, txs), a);
      FlatMapMember(TransactionActions, txs, a);
      if a in v.actions {
        assert a in Filter(HasNoReceipt, v.actions);
        SoleKey(IdOf, HasId(a.transaction.value.id), txs, a.transaction.value);
      }
    }
  }

  /** The same for the receipts of one run of the receipt loop. */
  lemma {:induction false} DistinctReceiptVisits(v: BlockView, ws: seq<WrappedReceipt>, r: ReceiptView)
    requires Assembled(v, ws) && NoDup(Map(ReceiptIdOf, ws))
    ensures LoopVisits(v, v.receipts, ReceiptItem(r)) == if r in v.receipts then 1 else 0
  {
    assert Map(ReceiptIdOf, ws) == Map(ViewIdOf, v.receipts);
    KeysNoDup(ViewIdOf, v.receipts);
    NoDupCount(v.receipts, r);
  }

  lemma {:induction false} DistinctReceiptActionVisits(v: BlockView, ws: seq<WrappedReceipt>, a: ActionView)
    requires Assembled(v, ws) && NoDup(Map(ReceiptIdOf, ws)) && HasReceipt(a)
    ensures LoopVisits(v, v.receipts, ActionItem(a)) == if a in v.actions then 1 else 0
  {
    FilterCount(HasReceipt, v.actions, a);
    ReceiptActionsNoDup(ws);
    NoDupCount(FlatMap(ReceiptActions, ws), a);
    if a in v.actions {
      OwnerOfReceiptAction(v, ws, a);
      assert Map(ReceiptIdOf, ws) == Map(ViewIdOf, v.receipts);
      SoleKey(ViewIdOf, HasReceiptId(a.receipt.value.receiptId), v.receipts, a.receipt.value);
    }
  }

  lemma {:induction false} OwnerOfReceiptAction(v: BlockView, ws: seq<WrappedReceipt>, a: ActionView)
    requires Assembled(v, ws) && HasReceipt(a) && a in v.actions
    ensures a in FlatMap(ReceiptActions, ws) && a.receipt.value in v.receipts
  {
    assert a in Filter(HasReceipt, v.actions);
    FlatMapMember(ReceiptActions, ws, a);
    var i :| 0 <= i < |ws| && a in ReceiptActions(ws[i]);
    assert v.receipts[i] == a.receipt.value;
  }

  lemma {:induction false} ReceiptActionsNoDup(ws: seq<WrappedReceipt>)
    requires NoDup(Map(ReceiptIdOf, ws))
    ensures NoDup(FlatMap(ReceiptActions, ws))
  {
    forall i, j, y | 0 <= i < j < |ws| && y in ReceiptActions(ws[i]) ensures y !in ReceiptActions(ws[j]) {
      assert Map(ReceiptIdOf, ws)[i] != Map(ReceiptIdOf, ws)[j];
    }
    FlatMapNoDup(ReceiptActions, ws);
  }

  lemma {:induction false} TransactionActionsNoDup(txs: seq<NearTransaction>)
    requires NoDup(Map(IdOf, txs))
    ensures NoDup(FlatMap(TransactionActions, txs))
  {
    forall i, j, y | 0 <= i < j < |txs| && y in TransactionActions(txs[i]) ensures y !in TransactionActions(txs[j]) {
      assert Map(IdOf, txs)[i] != Map(IdOf, txs)[j];
    }
    FlatMapNoDup(TransactionActions, txs);
  }

  function ViewIdOf(r: ReceiptView): string { r.receiptId }

  lemma {:induction false} DistinctVisits(v: BlockView, ws: seq<WrappedReceipt>, item: Item)
    requires Assembled(v, ws) && DistinctIds(v.transactions, ws)
    ensures Visits(v, item) == TimesDelivered(v, item)
  {
    var t := |v.transactions|;
    assert t * 0 == 0 && t * 1 == t;
    match item
    case BlockItem(_) =>
    case TransactionItem(_) => DistinctTransactionVisits(v, ws, item);
    case ReceiptItem(r) => DistinctReceiptVisits(v, ws, r);
    case ActionItem(a) =>
      if HasReceipt(a) {
        DistinctReceiptActionVisits(v, ws, a);
      } else {
        DistinctTransactionVisits(v, ws, item);
      }
  }

  /**
   * Delivery counts on every reachable block with distinct ids: per data source the block, each transaction
   * and each transaction action once, each receipt and each receipt action once per transaction.
   */
  lemma {:induction false} DeliveryCounts<D>(b: BlockResult, sched: seq<Event>, dss: seq<D>, item: Item, ds: D)
    requires Valid(b, sched) && DistinctIds(Run(b, sched).transactions, Originals(b, sched))
    ensures var v := Content(b, Run(b, sched));
      multiset(Trace(NestedItems(v), dss))[Delivery(KindOf(item), item, ds)]
        == TimesDelivered(v, item) * multiset(dss)[ds]
  {
    var v, ws := Content(b, Run(b, sched)), Originals(b, sched);
    ReachableIsAssembled(b, sched);
    DeliveryCountsExact(v, dss, item, ds);
    DistinctVisits(v, ws, item);
  }

  /** 1 + T + At + T * (R + Ar), read off the block. */
  function ItemsPerSource(v: BlockView): int {
    1 + |v.transactions| + |Filter(HasNoReceipt, v.actions)|
      + |v.transactions| * (|v.receipts| + |Filter(HasReceipt, v.actions)|)
  }

  lemma {:induction false} GroupedLength(v: BlockView, ws: seq<WrappedReceipt>)
    requires Assembled(v, ws)
    ensures |GroupedItems(v.header, v.transactions, ws)| == ItemsPerSource(v)
  {
    PassLength(v.transactions, ws);
    var perPass := |ws| + |FlatMap(ReceiptActions, ws)|;
    assert perPass == |v.receipts| + |Filter(HasReceipt, v.actions)|;
  }

  /**
   * The number of handler calls for one reachable block: never less than |dss| * (1 + T + At + T * (R + Ar)), and
   * exactly that if and only if no transaction or receipt that shares its id carries actions.
   */
  lemma {:induction false} DeliveryTotal<D>(b: BlockResult, sched: seq<Event>, dss: seq<D>)
    requires Valid(b, sched)
    ensures var v := Content(b, Run(b, sched));
      && |Trace(NestedItems(v), dss)| >= |dss| * ItemsPerSource(v)
      && (|Trace(NestedItems(v), dss)| == |dss| * ItemsPerSource(v) <==>
            dss == [] || Unambiguous(v.transactions, Originals(b, sched)))
  {
    var v, ws := Content(b, Run(b, sched)), Originals(b, sched);
    ReachableIsAssembled(b, sched);
    RegroupExact(v, ws);
    GroupedLength(v, ws);
    TraceLength(NestedItems(v), dss);
    MulMonotone(|dss|, ItemsPerSource(v), |NestedItems(v)|);
  }

  lemma {:induction false} MulMonotone(n: nat, small: int, large: int)
    requires small <= large
    ensures n * small <= n * large
    ensures n * small == n * large <==> n == 0 || small == large
  {
    assert n * large == n * small + n * (large - small);
  }

  // Independence of the schedule.

  /** Blocks with the same items, in whatever order and with whatever ids, are visited alike. */
  lemma {:induction false} VisitsUpToOrder(v: BlockView, v': BlockView, item: Item)
    requires v.header == v'.header && multiset(v.transactions) == multiset(v'.transactions)
    requires multiset(v.actions) == multiset(v'.actions) && multiset(v.receipts) == multiset(v'.receipts)
    ensures Visits(v, item) == Visits(v', item)
  {
    SameMultisetLength(v.transactions, v'.transactions);
    if item.ActionItem? && item.action.receipt.Some? {
      var p := HasReceiptId(item.action.receipt.value.receiptId);
      FilterPermutation(p, v.receipts, v'.receipts);
      SameMultisetLength(Filter(p, v.receipts), Filter(p, v'.receipts));
    } else if item.ActionItem? && item.action.transaction.Some? {
      var p := HasId(item.action.transaction.value.id);
      FilterPermutation(p, v.transactions, v'.transactions);
      SameMultisetLength(Filter(p, v.transactions), Filter(p, v'.transactions));
    }
  }

  /** Whatever order the event loop chose, the same handler calls are made, up to their order. */
  lemma {:induction false} ScheduleIndependence<D>(b: BlockResult, sched: seq<Event>, sched': seq<Event>, dss: seq<D>)
    requires Complete(b, sched) && Complete(b, sched')
    ensures multiset(Trace(NestedItems(Content(b, Run(b, sched))), dss))
         == multiset(Trace(NestedItems(Content(b, Run(b, sched'))), dss))
  {
    var v, v' := Content(b, Run(b, sched)), Content(b, Run(b, sched'));
    Conservation(b, sched);
    Conservation(b, sched');
    forall item ensures multiset(NestedItems(v))[item] == multiset(NestedItems(v'))[item] {
      VisitsUpToOrder(v, v', item);
      NestedCount(v, item);
      NestedCount(v', item);
    }
    FlatMapPermutation(DeliverTo(dss), NestedItems(v), NestedItems(v'));
  }

  /** Transactions with the given outcome id that carry actions. */
  function Carries(id: string): NearTransaction -> bool {
    (tx: NearTransaction) => tx.id == id && tx.actions != []
  }

  function Carriers(b: BlockResult, id: string): seq<NearTransaction> { Filter(Carries(id), AllTransactions(b)) }

  /** Looking up an outcome id yields the actions of its carriers, in the order the schedule stored them. */
  lemma {:induction false} LookupIsCarriers(b: BlockResult, sched: seq<Event>, id: string)
    requires Complete(b, sched)
    ensures var carriers := Filter(Carries(id), Run(b, sched).transactions);
      && Filter(OwnedBy(id), Run(b, sched).actions) == FlatMap(TransactionActions, carriers)
      && multiset(carriers) == multiset(Carriers(b, id))
  {
    var s := Run(b, sched);
    ActionsPartition(b, sched);
    FilterFilter(HasNoReceipt, OwnedBy(id), OwnedBy(id), s.actions);
    FilterFlatMap(OwnedBy(id), TransactionActions, Carries(id), s.transactions);
    OriginalsConserved(b, sched);
    FilterPermutation(Carries(id), s.transactions, AllTransactions(b));
  }

  /** The actions looked up for an id come from one transaction, whatever their order. */
  predicate SameCarriers(b: BlockResult, id: string) {
    forall x, y :: x in Carriers(b, id) && y in Carriers(b, id) ==> x == y
  }

  /** What is visited for `tx` before the receipt loop. */
  function Segment(b: BlockResult, sched: seq<Event>, tx: NearTransaction): seq<Item>
    requires Complete(b, sched)
  {
    LookedUpTransaction(Content(b, Run(b, sched)), tx)
  }

  /**
   * When no two different transactions carry actions for the outcome id of `tx`, the calls for `tx` and the
   * actions looked up for it are the same list in every schedule.
   */
  lemma {:induction false} SegmentIndependence<D>(
    b: BlockResult, sched: seq<Event>, sched': seq<Event>, tx: NearTransaction, dss: seq<D>)
    requires Complete(b, sched) && Complete(b, sched') && SameCarriers(b, tx.id)
    ensures Trace(Segment(b, sched, tx), dss) == Trace(Segment(b, sched', tx), dss)
  {
    SegmentsEqual(b, sched, sched', tx);
  }

  lemma {:induction false} SegmentsEqual(b: BlockResult, sched: seq<Event>, sched': seq<Event>, tx: NearTransaction)
    requires Complete(b, sched) && Complete(b, sched') && SameCarriers(b, tx.id)
    ensures Segment(b, sched, tx) == Segment(b, sched', tx)
  {
    LookupIsCarriers(b, sched, tx.id);
    LookupIsCarriers(b, sched', tx.id);
    ConstantPermutation(Carriers(b, tx.id), Filter(Carries(tx.id), Run(b, sched).transactions));
    ConstantPermutation(Carriers(b, tx.id), Filter(Carries(tx.id), Run(b, sched').transactions));
  }

  /** Some schedule stores a given transaction before all others. */
  lemma {:induction false} StoredFirst(b: BlockResult, tx: NearTransaction) returns (sched: seq<Event>)
    requires tx in AllTransactions(b)
    ensures Complete(b, sched) && [tx] <= Run(b, sched).transactions
  {
    FlatMapMember(ChunkTransactionsOf(b.header), b.chunks, tx);
    var chunk :| chunk in b.chunks && tx in ChunkTransactions(b.header, chunk);
    var c :| 0 <= c < |b.chunks| && b.chunks[c] == chunk;
    var t :| 0 <= t < |chunk.transactions| && ChunkTransactions(b.header, chunk)[t] == tx;
    var e0, e1 := FetchChunk(c), CompleteTx(c, t);
    FirstTransaction(b, c, t);
    sched := Completable(b, [e0, e1]);
    RunIsFold(b, [e0, e1]);
    RunIsFold(b, sched);
    FlatMapConcat(TransactionsBy(b), [e0, e1], sched[2..]);
    assert sched == [e0, e1] + sched[2..];
  }

  lemma {:induction false} FirstTransaction(b: BlockResult, c: nat, t: nat)
    requires c < |b.chunks| && t < |b.chunks[c].transactions|
    ensures Valid(b, [FetchChunk(c), CompleteTx(c, t)])
    ensures Run(b, [FetchChunk(c), CompleteTx(c, t)]).transactions
         == [WrapTransaction(b.header, b.chunks[c].transactions[t])]
  {
    var e0, e1 := FetchChunk(c), CompleteTx(c, t);
    RunSnoc(b, [], e0);
    assert [] + [e0] == [e0];
    RunSnoc(b, [e0], e1);
    assert [e0] + [e1] == [e0, e1];
  }

  /** Its actions then lead the segment of every transaction with its id. */
  lemma {:induction false} LeadingCarrier(b: BlockResult, sched: seq<Event>, tx: NearTransaction, first: NearTransaction)
    requires Complete(b, sched) && [first] <= Run(b, sched).transactions
    requires first.id == tx.id && first.actions != []
    ensures |Segment(b, sched, tx)| > 1 && Segment(b, sched, tx)[1] == ToItem(TransactionActions(first)[0])
  {
    var txs := Run(b, sched).transactions;
    var carriers := Filter(Carries(tx.id), txs);
    LookupIsCarriers(b, sched, tx.id);
    assert txs[0] == first && carriers == [first] + Filter(Carries(tx.id), txs[1..]);
    assert FlatMap(TransactionActions, carriers)[0] == TransactionActions(first)[0];
  }

  /** The condition is exact: if two different transactions carry actions for the id, two schedules disagree. */
  lemma {:induction false} SegmentIndependenceExact(b: BlockResult, tx: NearTransaction)
    ensures SameCarriers(b, tx.id) <==>
      forall sched, sched' :: Complete(b, sched) && Complete(b, sched') ==>
        Segment(b, sched, tx) == Segment(b, sched', tx)
  {
    if SameCarriers(b, tx.id) {
      forall sched, sched' | Complete(b, sched) && Complete(b, sched')
        ensures Segment(b, sched, tx) == Segment(b, sched', tx)
      {
        SegmentsEqual(b, sched, sched', tx);
      }
    } else {
      var x, y :| x in Carriers(b, tx.id) && y in Carriers(b, tx.id) && x != y;
      var sched := StoredFirst(b, x);
      var sched' := StoredFirst(b, y);
      LeadingCarrier(b, sched, tx, x);
      LeadingCarrier(b, sched', tx, y);
      assert TransactionActions(x)[0].transaction != TransactionActions(y)[0].transaction;
      assert Segment(b, sched, tx) != Segment(b, sched', tx);
    }
  }

  /** What a transaction may contribute to its own outcome id. */
  function OwnCarrier(tx: NearTransaction): seq<NearTransaction> { if tx.actions == [] then [] else [tx] }

  lemma {:induction false} OwnCarrierReordered(tx: NearTransaction, s: seq<NearTransaction>, t: seq<NearTransaction>)
    requires multiset(s) == multiset(t)
    ensures s == OwnCarrier(tx) <==> t == OwnCarrier(tx)
  {
    if s == OwnCarrier(tx) {
      ConstantPermutation(s, t);
    } else if t == OwnCarrier(tx) {
      ConstantPermutation(t, s);
    }
  }

  lemma {:induction false} LookupIsOwn(b: BlockResult, sched: seq<Event>, i: nat)
    requires Valid(b, sched) && i < |Run(b, sched).transactions|
    ensures var txs := Run(b, sched).transactions;
      (Filter(OwnedBy(txs[i].id), Run(b, sched).actions) == TransactionActions(txs[i])) <==>
      (Filter(Carries(txs[i].id), txs) == OwnCarrier(txs[i]))
  {
    ReachableIsAssembled(b, sched);
    LookupTransaction(Content(b, Run(b, sched)), Originals(b, sched), i);
    FilterSole(Carries(Run(b, sched).transactions[i].id), Run(b, sched).transactions, i);
  }

  /** The list is that of `tx` and its own actions if and only if no other transaction carries actions for its id. */
  lemma {:induction false} SegmentExact(b: BlockResult, sched: seq<Event>, tx: NearTransaction)
    requires Complete(b, sched) && tx in AllTransactions(b)
    ensures Segment(b, sched, tx) == GroupTransaction(tx) <==> Carriers(b, tx.id) == OwnCarrier(tx)
  {
    var txs := Run(b, sched).transactions;
    var carriers := Filter(Carries(tx.id), txs);
    OriginalsConserved(b, sched);
    SameMultisetMember(txs, AllTransactions(b), tx);
    var i :| 0 <= i < |txs| && txs[i] == tx;
    LookupIsOwn(b, sched, i);
    LookupIsCarriers(b, sched, tx.id);
    OwnCarrierReordered(tx, carriers, Carriers(b, tx.id));
    SameSegment(tx, Filter(OwnedBy(tx.id), Run(b, sched).actions));
  }

  lemma {:induction false} SameSegment(tx: NearTransaction, found: seq<ActionView>)
    ensures [TransactionItem(tx)] + Map(ToItem, found) == GroupTransaction(tx) <==> found == TransactionActions(tx)
  {
    var head, own := [TransactionItem(tx)], TransactionActions(tx);
    ToItemInjective(found, own);
    if head + Map(ToItem, found) == head + Map(ToItem, own) {
      assert (head + Map(ToItem, found))[1..] == Map(ToItem, found);
      assert (head + Map(ToItem, own))[1..] == Map(ToItem, own);
    }
  }

  lemma {:induction false} ToItemInjective(s: seq<ActionView>, t: seq<ActionView>)
    ensures Map(ToItem, s) == Map(ToItem, t) <==> s == t
  {
    if Map(ToItem, s) == Map(ToItem, t) {
      assert |s| == |t|;
      forall i | 0 <= i < |s| ensures s[i] == t[i] {
        assert Map(ToItem, s)[i] == Map(ToItem, t)[i];
      }
    }
  }

  /**
   * Assemble one block under some event order, then traverse it: handlers get the nested trace, which is the
   * grouped one exactly when no transaction or receipt that shares its id carries actions.
   */
  method AssembleAndIndex<D>(b: BlockResult, sched: seq<Event>, dataSources: seq<D>, manager: IndexerManager<D>)
    requires Valid(b, sched)
    modifies manager
    ensures manager.delivered == old(manager.delivered) + Trace(NestedItems(Content(b, Run(b, sched))), dataSources)
    ensures Unambiguous(Run(b, sched).transactions, Originals(b, sched)) ==>
      manager.delivered == old(manager.delivered)
        + Trace(GroupedItems(b.header, Run(b, sched).transactions, Originals(b, sched)), dataSources)
  {
    var block := W.WrapBlock(b, sched);
    ghost var v := Content(b, Run(b, sched));
    forall a | a in v.actions ensures Produced(a) {
      Ownership(b, sched, a);
    }
    manager.IndexBlockData(block, dataSources, v);
    ReachableIsAssembled(b, sched);
    RegroupExact(v, Originals(b, sched));
  }
}
