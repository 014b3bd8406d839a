/**
 * Concurrent block assembly (`wrapBlock`) as an event machine. Each event is the synchronous code
 * between two suspension points of the source; the event loop may deliver enabled events in any order.
 */
module Assembly {
  import opened Seqs
  import opened NearTypes

  datatype Event =
    | FetchChunk(c: nat)           // api.chunk answered for chunk c
    | CompleteTx(c: nat, t: nat)   // api.txStatusReceipts answered for transaction t of chunk c
    | FinishChunk(c: nat)          // every transaction of chunk c is complete

  /** Which promises have settled, and the three arrays all continuations push to. */
  datatype State = State(
    settled: set<Event>, transactions: seq<NearTransaction>, actions: seq<ActionView>, receipts: seq<ReceiptView>)

  const INITIAL_STATE := State({}, [], [], [])

  predicate Enabled(b: BlockResult, settled: set<Event>, e: Event) {
    && e !in settled
    && e.c < |b.chunks|
    && match e
       case FetchChunk(_) => true
       case CompleteTx(c, t) => FetchChunk(c) in settled && t < |b.chunks[c].transactions|
       case FinishChunk(c) =>
         FetchChunk(c) in settled && forall t :: 0 <= t < |b.chunks[c].transactions| ==> CompleteTx(c, t) in settled
  }

  function WrapReceipts(chunk: Chunk): seq<WrappedReceipt> {
    seq(|chunk.receipts|, i requires 0 <= i < |chunk.receipts| =>
      WrapReceipt(chunk.receipts[i], i, chunk.heightIncluded))
  }

  /** The synchronous code of one event, run to its next suspension point. */
  function Apply(b: BlockResult, s: State, e: Event): State
    requires Enabled(b, s.settled, e)
  {
    var s' := s.(settled := s.settled + {e});
    match e
    case FetchChunk(_) => s'
    case CompleteTx(c, t) =>
      var tx := WrapTransaction(b.header, b.chunks[c].transactions[t]);
      s'.(transactions := s.transactions + [tx], actions := s.actions + TransactionActions(tx))
    case FinishChunk(c) =>
      var ws := WrapReceipts(b.chunks[c]);
      s'.(actions := s.actions + FlatMap(ReceiptActions, ws), receipts := s.receipts + Map(ViewOf, ws))
  }

  /** A schedule is an order in which the event loop may deliver events. */
  predicate Valid(b: BlockResult, sched: seq<Event>)
    decreases |sched|, 0
  {
    sched == [] ||
    (Valid(b, sched[..|sched| - 1]) &&
     Enabled(b, Run(b, sched[..|sched| - 1]).settled, sched[|sched| - 1]))
  }

  function Run(b: BlockResult, sched: seq<Event>): State
    requires Valid(b, sched)
    decreases |sched|, 1
  {
    if sched == [] then INITIAL_STATE
    else Apply(b, Run(b, sched[..|sched| - 1]), sched[|sched| - 1])
  }

  /** All chunk promises have settled: `wrapBlock` returns. */
  predicate Finished(b: BlockResult, s: State) {
    forall c :: 0 <= c < |b.chunks| ==> FinishChunk(c) in s.settled
  }

  /** A schedule that finishes the block. */
  predicate Complete(b: BlockResult, sched: seq<Event>) { Valid(b, sched) && Finished(b, Run(b, sched)) }

  function Content(b: BlockResult, s: State): BlockView {
    BlockView(b.header, s.transactions, s.actions, s.receipts)
  }

  // What one event contributes to the transactions and to the wrapped receipts.

  function EventTransactions(b: BlockResult, e: Event): seq<NearTransaction> {
    if e.CompleteTx? && e.c < |b.chunks| && e.t < |b.chunks[e.c].transactions|
    then [WrapTransaction(b.header, b.chunks[e.c].transactions[e.t])]
    else []
  }

  function EventReceipts(b: BlockResult, e: Event): seq<WrappedReceipt> {
    if e.FinishChunk? && e.c < |b.chunks| then WrapReceipts(b.chunks[e.c]) else []
  }

  function TransactionsBy(b: BlockResult): Event -> seq<NearTransaction> { e => EventTransactions(b, e) }

  function ReceiptsBy(b: BlockResult): Event -> seq<WrappedReceipt> { e => EventReceipts(b, e) }

  /** The wrapped receipts of a schedule in the order their chunks finished. */
  function Originals(b: BlockResult, sched: seq<Event>): seq<WrappedReceipt> { FlatMap(ReceiptsBy(b), sched) }

  lemma {:induction false} ValidPrefix(b: BlockResult, sched: seq<Event>)
    requires sched != [] && Valid(b, sched)
    ensures Valid(b, sched[..|sched| - 1])
    ensures Enabled(b, Run(b, sched[..|sched| - 1]).settled, sched[|sched| - 1])
    ensures Run(b, sched) == Apply(b, Run(b, sched[..|sched| - 1]), sched[|sched| - 1])
    ensures sched == sched[..|sched| - 1] + [sched[|sched| - 1]]
  {
  }

  /** Every reachable state is the fold of what its events contribute, in the order they were delivered. */
  lemma {:induction false} RunIsFold(b: BlockResult, sched: seq<Event>)
    requires Valid(b, sched)
    ensures var s := Run(b, sched);
      && (forall e :: e in s.settled <==> e in sched)
      && s.transactions == FlatMap(TransactionsBy(b), sched)
      && s.receipts == Map(ViewOf, Originals(b, sched))
  {
    if sched != [] {
      ValidPrefix(b, sched);
      var pre, e := sched[..|sched| - 1], sched[|sched| - 1];
      RunIsFold(b, pre);
      FlatMapSnoc(TransactionsBy(b), pre, e);
      FlatMapSnoc(ReceiptsBy(b), pre, e);
      MapConcat(ViewOf, Originals(b, pre), EventReceipts(b, e));
    }
  }

  lemma {:induction false} ReceiptActionsHaveReceipt(ws: seq<WrappedReceipt>)
    ensures Filter(HasReceipt, FlatMap(ReceiptActions, ws)) == FlatMap(ReceiptActions, ws)
    ensures Filter(HasNoReceipt, FlatMap(ReceiptActions, ws)) == []
  {
    var all := FlatMap(ReceiptActions, ws);
    forall a | a in all ensures HasReceipt(a) {
      FlatMapMember(ReceiptActions, ws, a);
    }
    FilterAll(HasReceipt, all);
    FilterNone(HasNoReceipt, all);
  }

  /**
   * In every reachable state the actions without a receipt are, in order, the actions of the stored
   * transactions, and the actions with a receipt are, in order, the original actions of the stored receipts.
   */
  lemma {:induction false} ActionsPartition(b: BlockResult, sched: seq<Event>)
    requires Valid(b, sched)
    ensures var s := Run(b, sched);
      && Filter(HasNoReceipt, s.actions) == FlatMap(TransactionActions, s.transactions)
      && Filter(HasReceipt, s.actions) == FlatMap(ReceiptActions, Originals(b, sched))
      && s.receipts == Map(ViewOf, Originals(b, sched))
  {
    RunIsFold(b, sched);
    if sched != [] {
      ValidPrefix(b, sched);
      var pre, e := sched[..|sched| - 1], sched[|sched| - 1];
      ActionsPartition(b, pre);
      var s := Run(b, pre);
      FlatMapSnoc(ReceiptsBy(b), pre, e);
      match e {
        case FetchChunk(_) =>
          assert Originals(b, sched) == Originals(b, pre);
        case CompleteTx(c, t) =>
          assert Originals(b, sched) == Originals(b, pre);
          var tx := WrapTransaction(b.header, b.chunks[c].transactions[t]);
          FilterConcat(HasNoReceipt, s.actions, TransactionActions(tx));
          FilterConcat(HasReceipt, s.actions, TransactionActions(tx));
          FilterAll(HasNoReceipt, TransactionActions(tx));
          FilterNone(HasReceipt, TransactionActions(tx));
          FlatMapSnoc(TransactionActions, s.transactions, tx);
        case FinishChunk(c) =>
          var ws := WrapReceipts(b.chunks[c]);
          FilterConcat(HasNoReceipt, s.actions, FlatMap(ReceiptActions, ws));
          FilterConcat(HasReceipt, s.actions, FlatMap(ReceiptActions, ws));
          ReceiptActionsHaveReceipt(ws);
          FlatMapConcat(ReceiptActions, Originals(b, pre), ws);
      }
    }
  }

  /**
   * In every reachable state each stored action has exactly one of `transaction` and `receipt`, and
   * what it refers to is itself stored in the block.
   */
  lemma {:induction false} Ownership(b: BlockResult, sched: seq<Event>, a: ActionView)
    requires Valid(b, sched) && a in Run(b, sched).actions
    ensures Produced(a)
    ensures a.receipt.None? ==> a.transaction.value in Run(b, sched).transactions
    ensures a.receipt.Some? ==> a.receipt.value in Run(b, sched).receipts
  {
    var s := Run(b, sched);
    ActionsPartition(b, sched);
    if a.receipt.None? {
      assert a in Filter(HasNoReceipt, s.actions);
      FlatMapMember(TransactionActions, s.transactions, a);
    } else {
      assert a in Filter(HasReceipt, s.actions);
      FlatMapMember(ReceiptActions, Originals(b, sched), a);
      var w :| w in Originals(b, sched) && a in ReceiptActions(w);
      var i :| 0 <= i < |Originals(b, sched)| && Originals(b, sched)[i] == w;
      assert Map(ViewOf, Originals(b, sched))[i] == w.view;
    }
  }

  /** Every stored transaction is one of the node's, stamped with the block it was fetched for. */
  lemma {:induction false} StoredTransaction(b: BlockResult, sched: seq<Event>, tx: NearTransaction)
    returns (c: nat, t: nat)
    requires Valid(b, sched) && tx in Run(b, sched).transactions
    ensures c < |b.chunks| && t < |b.chunks[c].transactions|
    ensures Wraps(b.header, b.chunks[c].transactions[t], tx)
  {
    RunIsFold(b, sched);
    FlatMapMember(TransactionsBy(b), sched, tx);
    var e :| e in sched && tx in EventTransactions(b, e);
    c, t := e.c, e.t;
  }

  /** Every stored receipt is one of the node's, numbered within its chunk and stamped with the chunk's height. */
  lemma {:induction false} StoredReceipt(b: BlockResult, sched: seq<Event>, w: WrappedReceipt) returns (c: nat)
    requires Valid(b, sched) && w in Originals(b, sched)
    ensures c < |b.chunks| && w.view.id < |b.chunks[c].receipts|
    ensures w.view in Run(b, sched).receipts
    ensures WrapsReceipt(b.chunks[c].heightIncluded, w.view.id, b.chunks[c].receipts[w.view.id], w.view)
    ensures w.actions == RawActions(b.chunks[c].receipts[w.view.id])
  {
    RunIsFold(b, sched);
    FlatMapMember(ReceiptsBy(b), sched, w);
    var e :| e in sched && w in EventReceipts(b, e);
    c := e.c;
    var i :| 0 <= i < |Originals(b, sched)| && Originals(b, sched)[i] == w;
    assert Map(ViewOf, Originals(b, sched))[i] == w.view;
  }

  /** The payload a handler sees: unchanged, but FunctionCall arguments are the same text as an object. */
  predicate ParsedFrom(raw: ActionValue, parsed: ActionValue) {
    if raw.FunctionCall? then
      parsed.FunctionCall? && parsed.methodName == raw.methodName && parsed.args == Boxed(raw.args.text)
    else parsed == raw
  }

  /** Every stored action is the one its owner lists at the position its id says, with its payload parsed. */
  lemma {:induction false} StoredAction(b: BlockResult, sched: seq<Event>, a: ActionView)
    returns (raw: seq<ActionValue>)
    requires Valid(b, sched) && a in Run(b, sched).actions
    ensures a.id < |raw| && ParsedFrom(raw[a.id], a.value)
    ensures a.receipt.None? ==> a.transaction.Some? && raw == a.transaction.value.actions
    ensures a.receipt.Some? ==> WrappedReceipt(a.receipt.value, raw) in Originals(b, sched)
  {
    ActionsPartition(b, sched);
    if a.receipt.None? {
      assert a in Filter(HasNoReceipt, Run(b, sched).actions);
      FlatMapMember(TransactionActions, Run(b, sched).transactions, a);
      raw := a.transaction.value.actions;
    } else {
      assert a in Filter(HasReceipt, Run(b, sched).actions);
      raw := ListedByReceipt(Originals(b, sched), a);
    }
  }

  lemma {:induction false} ListedByReceipt(ws: seq<WrappedReceipt>, a: ActionView) returns (raw: seq<ActionValue>)
    requires a in FlatMap(ReceiptActions, ws)
    ensures a.id < |raw| && ParsedFrom(raw[a.id], a.value)
    ensures a.receipt.Some? && WrappedReceipt(a.receipt.value, raw) in ws
  {
    FlatMapMember(ReceiptActions, ws, a);
    var w :| w in ws && a in ReceiptActions(w);
    raw := w.actions;
    assert w == WrappedReceipt(a.receipt.value, raw);
  }

  // The steps, on the positions of what the node answered.

  /** `tx` is `raw` with every property kept, stamped with the block it was fetched for and with its own outcome. */
  predicate Wraps(header: Header, raw: RawTransaction, tx: NearTransaction) {
    && tx.signerId == raw.signerId && tx.receiverId == raw.receiverId
    && tx.actions == raw.actions && tx.details == raw.details
    && tx.id == raw.outcomeId && tx.gasUsed == raw.gasBurnt && tx.logs == raw.logs && tx.receiptIds == raw.receiptIds
    && tx.blockHash == header.hash && tx.blockHeight == header.height
    && tx.timestamp == header.timestamp && tx.gasPrice == header.gasPrice
  }

  /** `r` is the receipt at position `i` of its chunk, without its actions. */
  predicate WrapsReceipt(height: int, i: nat, raw: RawReceipt, r: ReceiptView) {
    && r.id == i && r.blockHeight == height && r.receiptId == raw.receiptId
    && r.predecessorId == raw.predecessorId && r.receiverId == raw.receiverId
    && (raw.body.RawAction? ==> r.body == ActionBody(raw.body.signerId, raw.body.details))
    && (raw.body.RawData? ==> r.body == DataBody(raw.body.data, raw.body.dataId))
  }

  function RawActions(raw: RawReceipt): seq<ActionValue> { if raw.body.RawAction? then raw.body.actions else [] }

  /** How many actions the first `i` receipts have. */
  function Offset(rs: seq<RawReceipt>, i: nat): nat
    requires i <= |rs|
  {
    if i == 0 then 0 else Offset(rs, i - 1) + |RawActions(rs[i - 1])|
  }

  /** Position by position, the actions of a transaction. */
  predicate TransactionActionsInOrder(tx: NearTransaction, own: seq<ActionView>) {
    && |own| == |tx.actions|
    && forall k :: 0 <= k < |own| ==>
         && own[k].id == k && own[k].transaction == Some(tx) && own[k].receipt == None
         && ParsedFrom(tx.actions[k], own[k].value)
  }

  /** Position by position, the receipts of a chunk. */
  predicate ReceiptsInOrder(chunk: Chunk, mid: seq<ReceiptView>) {
    && |mid| == |chunk.receipts|
    && forall i :: 0 <= i < |mid| ==> WrapsReceipt(chunk.heightIncluded, i, chunk.receipts[i], mid[i])
  }

  /** Position by position, the actions of a receipt. */
  predicate ReceiptActionsOf(raw: seq<ActionValue>, r: ReceiptView, own: seq<ActionView>) {
    && |own| == |raw|
    && forall k :: 0 <= k < |own| ==>
         own[k].id == k && own[k].receipt == Some(r) && own[k].transaction == None && ParsedFrom(raw[k], own[k].value)
  }

  /** The actions of the receipt at position `i` stand where the actions of all earlier receipts end. */
  predicate ReceiptActionsFollow(chunk: Chunk, i: nat, r: ReceiptView, own: seq<ActionView>)
    requires i < |chunk.receipts|
  {
    var lo, hi := Offset(chunk.receipts, i), Offset(chunk.receipts, i + 1);
    lo <= hi <= |own| && ReceiptActionsOf(RawActions(chunk.receipts[i]), r, own[lo..hi])
  }

  /** The actions of a chunk's receipts, ordered by receipt position and then by action position. */
  predicate ReceiptActionsInOrder(chunk: Chunk, mid: seq<ReceiptView>, own: seq<ActionView>)
    requires |mid| == |chunk.receipts|
  {
    && |own| == Offset(chunk.receipts, |mid|)
    && forall i :: 0 <= i < |mid| ==> ReceiptActionsFollow(chunk, i, mid[i], own)
  }

  lemma {:induction false} FetchStep(b: BlockResult, sched: seq<Event>, c: nat)
    requires Valid(b, sched + [FetchChunk(c)])
    ensures Valid(b, sched)
    ensures var s, next := Run(b, sched), Run(b, sched + [FetchChunk(c)]);
      next.transactions == s.transactions && next.receipts == s.receipts && next.actions == s.actions
  {
    ValidPrefix(b, sched + [FetchChunk(c)]);
    assert (sched + [FetchChunk(c)])[..|sched|] == sched;
  }

  /** A completed transaction appends itself and its own actions, in their order, and nothing else. */
  lemma {:induction false} TransactionStep(b: BlockResult, sched: seq<Event>, c: nat, t: nat)
    returns (tx: NearTransaction, own: seq<ActionView>)
    requires Valid(b, sched + [CompleteTx(c, t)])
    ensures Valid(b, sched) && c < |b.chunks| && t < |b.chunks[c].transactions|
    ensures Wraps(b.header, b.chunks[c].transactions[t], tx) && TransactionActionsInOrder(tx, own)
    ensures var s, next := Run(b, sched), Run(b, sched + [CompleteTx(c, t)]);
      && next.transactions == s.transactions + [tx]
      && next.receipts == s.receipts && next.actions == s.actions + own
  {
    ValidPrefix(b, sched + [CompleteTx(c, t)]);
    assert (sched + [CompleteTx(c, t)])[..|sched|] == sched;
    tx := WrapTransaction(b.header, b.chunks[c].transactions[t]);
    own := TransactionActions(tx);
  }

  /** A finished chunk appends its receipts and their actions, in their order, and nothing else. */
  lemma {:induction false} FinishStep(b: BlockResult, sched: seq<Event>, c: nat)
    returns (mid: seq<ReceiptView>, own: seq<ActionView>)
    requires Valid(b, sched + [FinishChunk(c)])
    ensures Valid(b, sched) && c < |b.chunks|
    ensures ReceiptsInOrder(b.chunks[c], mid) && ReceiptActionsInOrder(b.chunks[c], mid, own)
    ensures var s, next := Run(b, sched), Run(b, sched + [FinishChunk(c)]);
      && next.transactions == s.transactions
      && next.receipts == s.receipts + mid && next.actions == s.actions + own
  {
    ValidPrefix(b, sched + [FinishChunk(c)]);
    assert (sched + [FinishChunk(c)])[..|sched|] == sched;
    mid, own := ChunkReceipts(b, c), ChunkReceiptActions(b, c);
    ChunkInOrder(b, c);
  }

  lemma {:induction false} ChunkInOrder(b: BlockResult, c: nat)
    requires c < |b.chunks|
    ensures ReceiptsInOrder(b.chunks[c], ChunkReceipts(b, c))
    ensures ReceiptActionsInOrder(b.chunks[c], ChunkReceipts(b, c), ChunkReceiptActions(b, c))
  {
    var chunk, mid, own := b.chunks[c], ChunkReceipts(b, c), ChunkReceiptActions(b, c);
    var n := |chunk.receipts|;
    OffsetIsLength(chunk, n);
    assert WrapReceipts(chunk)[..n] == WrapReceipts(chunk);
    forall i | 0 <= i < n ensures ReceiptActionsFollow(chunk, i, mid[i], own) {
      ReceiptActionsAt(chunk, i);
      ReceiptActionsListed(chunk, i);
    }
  }

  lemma {:induction false} ReceiptActionsListed(chunk: Chunk, i: nat)
    requires i < |chunk.receipts|
    ensures var w := WrapReceipts(chunk)[i];
      ReceiptActionsOf(RawActions(chunk.receipts[i]), w.view, ReceiptActions(w))
  {
  }

  lemma {:induction false} OffsetIsLength(chunk: Chunk, i: nat)
    requires i <= |chunk.receipts|
    ensures |FlatMap(ReceiptActions, WrapReceipts(chunk)[..i])| == Offset(chunk.receipts, i)
  {
    if i > 0 {
      OffsetIsLength(chunk, i - 1);
      FlatMapStep(ReceiptActions, WrapReceipts(chunk), i - 1);
    }
  }

  lemma {:induction false} ReceiptActionsAt(chunk: Chunk, i: nat)
    requires i < |chunk.receipts|
    ensures var lo, hi, all :=
        Offset(chunk.receipts, i), Offset(chunk.receipts, i + 1), FlatMap(ReceiptActions, WrapReceipts(chunk));
      lo <= hi <= |all| && all[lo..hi] == ReceiptActions(WrapReceipts(chunk)[i])
  {
    var ws := WrapReceipts(chunk);
    OffsetIsLength(chunk, i);
    FlatMapAt(ReceiptActions, ws, i);
  }

  /**
   * The schedules are exactly the orders in which every event follows what its continuation awaits: nothing
   * else restricts the event loop.
   */
  lemma {:induction false} ScheduleExact(b: BlockResult, sched: seq<Event>)
    ensures Valid(b, sched) <==> NoDup(sched) && forall i :: 0 <= i < |sched| ==> Awaited(b, sched[..i], sched[i])
  {
    if sched != [] {
      var pre, e := sched[..|sched| - 1], sched[|sched| - 1];
      ScheduleExact(b, pre);
      assert sched == pre + [e];
      forall i | 0 <= i < |pre| ensures sched[..i] == pre[..i] && sched[i] == pre[i] {
      }
      assert sched[..|pre|] == pre;
      if Valid(b, pre) {
        RunIsFold(b, pre);
        assert e !in pre && Awaited(b, pre, e) <==> Enabled(b, Run(b, pre).settled, e);
      }
      SnocNoDup(pre, e);
    }
  }

  /** Everything the continuation of `e` awaits is among the events delivered before. */
  predicate Awaited(b: BlockResult, before: seq<Event>, e: Event) {
    e.c < |b.chunks| &&
    match e
    case FetchChunk(_) => true
    case CompleteTx(c, t) => t < |b.chunks[c].transactions| && FetchChunk(c) in before
    case FinishChunk(c) =>
      && FetchChunk(c) in before
      && forall t :: 0 <= t < |b.chunks[c].transactions| ==> CompleteTx(c, t) in before
  }

  // The blocks that `wrapBlock` returns.

  ghost predicate Returned(v: BlockView) {
    exists b, sched :: IsReturned(v, b, sched)
  }

  /** `v` is what `wrapBlock` returns for `b` when the event loop delivers `sched`. */
  predicate IsReturned(v: BlockView, b: BlockResult, sched: seq<Event>) {
    Complete(b, sched) && v == Content(b, Run(b, sched))
  }

  /** An action of some block that `wrapBlock` returns. */
  ghost predicate Stored(a: ActionView) {
    exists v :: Returned(v) && a in v.actions
  }

  lemma {:induction false} ReturnedOwnership(v: BlockView)
    requires Returned(v)
    ensures forall a :: a in v.actions ==> Produced(a)
    ensures forall a :: a in v.actions && a.receipt.None? ==>
      a.transaction.Some? && a.transaction.value in v.transactions
    ensures forall a :: a in v.actions && a.receipt.Some? ==> a.receipt.value in v.receipts
  {
    var b, sched :| IsReturned(v, b, sched);
    forall a | a in v.actions
      ensures Produced(a)
      ensures a.receipt.None? ==> a.transaction.Some? && a.transaction.value in v.transactions
      ensures a.receipt.Some? ==> a.receipt.value in v.receipts
    {
      Ownership(b, sched, a);
    }
  }

  lemma {:induction false} StoredIsProduced(a: ActionView)
    requires Stored(a)
    ensures Produced(a)
  {
    var v :| Returned(v) && a in v.actions;
    ReturnedOwnership(v);
  }

  /** A block without chunks. */
  lemma {:induction false} EmptyReturned(header: Header)
    ensures Returned(BlockView(header, [], [], []))
  {
    assert IsReturned(BlockView(header, [], [], []), BlockResult(header, []), []);
  }

  /** A block whose one chunk holds one transaction. */
  lemma {:induction false} TransactionReturned(header: Header, raw: RawTransaction)
    ensures var tx := WrapTransaction(header, raw);
      Returned(BlockView(header, [tx], TransactionActions(tx), []))
  {
    var b := BlockResult(header, [Chunk(0, [raw], [])]);
    var e0, e1, e2 := FetchChunk(0), CompleteTx(0, 0), FinishChunk(0);
    var tx := WrapTransaction(header, raw);
    RunSnoc(b, [], e0);
    assert [] + [e0] == [e0];
    RunSnoc(b, [e0], e1);
    assert [e0] + [e1] == [e0, e1];
    RunSnoc(b, [e0, e1], e2);
    assert [e0, e1] + [e2] == [e0, e1, e2];
    assert WrapReceipts(b.chunks[0]) == [];
    assert IsReturned(BlockView(header, [tx], TransactionActions(tx), []), b, [e0, e1, e2]);
  }

  lemma {:induction false} FinishReceiptChunk(b: BlockResult, s: State, w: WrappedReceipt)
    requires |b.chunks| == 1 && |b.chunks[0].transactions| == 0 && WrapReceipts(b.chunks[0]) == [w]
    requires s == State({FetchChunk(0)}, [], [], [])
    ensures Enabled(b, s.settled, FinishChunk(0))
    ensures Apply(b, s, FinishChunk(0)) == State({FetchChunk(0), FinishChunk(0)}, [], ReceiptActions(w), [w.view])
  {
    FlatMapSingle(ReceiptActions, w);
    assert Map(ViewOf, [w]) == [w.view];
  }

  /** A block whose one chunk holds one receipt. */
  lemma {:induction false} ReceiptReturned(header: Header, raw: RawReceipt, height: int)
    ensures var w := WrapReceipt(raw, 0, height);
      Returned(BlockView(header, [], ReceiptActions(w), [w.view]))
  {
    var b := BlockResult(header, [Chunk(height, [], [raw])]);
    var e0, e1 := FetchChunk(0), FinishChunk(0);
    var w := WrapReceipt(raw, 0, height);
    RunSnoc(b, [], e0);
    assert [] + [e0] == [e0];
    FinishReceiptChunk(b, Run(b, [e0]), w);
    RunSnoc(b, [e0], e1);
    assert [e0] + [e1] == [e0, e1];
    assert IsReturned(BlockView(header, [], ReceiptActions(w), [w.view]), b, [e0, e1]);
  }

  lemma {:induction false} RunSnoc(b: BlockResult, sched: seq<Event>, e: Event)
    requires Valid(b, sched) && Enabled(b, Run(b, sched).settled, e)
    ensures Valid(b, sched + [e]) && Run(b, sched + [e]) == Apply(b, Run(b, sched), e)
  {
    var next := sched + [e];
    assert next != [] && next[|next| - 1] == e && next[..|next| - 1] == sched;
  }

  // The sequential schedule: chunk after chunk, transaction after transaction.

  /** The first `n` completions of chunk `c`. */
  function Completions(c: nat, n: nat): seq<Event> { seq(n, t requires 0 <= t < n => CompleteTx(c, t)) }

  function ChunkEvents(b: BlockResult, c: nat): seq<Event>
    requires c < |b.chunks|
  {
    [FetchChunk(c)] + Completions(c, |b.chunks[c].transactions|) + [FinishChunk(c)]
  }

  function EventsUpTo(b: BlockResult, n: nat): seq<Event>
    requires n <= |b.chunks|
  {
    if n == 0 then [] else EventsUpTo(b, n - 1) + ChunkEvents(b, n - 1)
  }

  function AllEvents(b: BlockResult): seq<Event> { EventsUpTo(b, |b.chunks|) }

  predicate EventOf(b: BlockResult, n: nat, e: Event) {
    e.c < n && e.c < |b.chunks| && (e.CompleteTx? ==> e.t < |b.chunks[e.c].transactions|)
  }

  lemma {:induction false} ChunkEventsExact(b: BlockResult, c: nat)
    requires c < |b.chunks|
    ensures NoDup(ChunkEvents(b, c))
    ensures forall e :: e in ChunkEvents(b, c) <==> EventOf(b, c + 1, e) && e.c == c
  {
    var n := |b.chunks[c].transactions|;
    forall e | EventOf(b, c + 1, e) && e.c == c ensures e in ChunkEvents(b, c) {
      match e {
        case FetchChunk(_) => assert ChunkEvents(b, c)[0] == e;
        case CompleteTx(_, t) => assert ChunkEvents(b, c)[t + 1] == e;
        case FinishChunk(_) => assert ChunkEvents(b, c)[n + 1] == e;
      }
    }
  }

  lemma {:induction false} EventsUpToExact(b: BlockResult, n: nat)
    requires n <= |b.chunks|
    ensures NoDup(EventsUpTo(b, n))
    ensures forall e :: e in EventsUpTo(b, n) <==> EventOf(b, n, e)
  {
    if n > 0 {
      EventsUpToExact(b, n - 1);
      ChunkEventsExact(b, n - 1);
      var init, last := EventsUpTo(b, n - 1), ChunkEvents(b, n - 1);
      forall i, j | 0 <= i < |init| && 0 <= j < |last| ensures init[i] != last[j] {
        assert EventOf(b, n - 1, init[i]);
        assert last[j] in last;
      }
      forall i, j | 0 <= i < j < |init + last| ensures (init + last)[i] != (init + last)[j] {
        if i >= |init| {
          assert last[i - |init|] != last[j - |init|];
        }
      }
    }
  }

  lemma {:induction false} ScheduledEvents(b: BlockResult, sched: seq<Event>)
    requires Valid(b, sched)
    ensures NoDup(sched)
    ensures forall e :: e in sched ==> EventOf(b, |b.chunks|, e)
    ensures forall c, t :: CompleteTx(c, t) in sched ==> FetchChunk(c) in sched
    ensures forall c :: FinishChunk(c) in sched ==> FetchChunk(c) in sched
    ensures forall c: nat, t: nat ::
      FinishChunk(c) in sched && c < |b.chunks| && t < |b.chunks[c].transactions| ==> CompleteTx(c, t) in sched
  {
    if sched != [] {
      ValidPrefix(b, sched);
      ScheduledEvents(b, sched[..|sched| - 1]);
      RunIsFold(b, sched[..|sched| - 1]);
    }
  }

  lemma {:induction false} FinishedEvents(b: BlockResult, sched: seq<Event>)
    requires Complete(b, sched)
    ensures forall e :: EventOf(b, |b.chunks|, e) ==> e in sched
  {
    RunIsFold(b, sched);
    ScheduledEvents(b, sched);
    forall e | EventOf(b, |b.chunks|, e) ensures e in sched {
      assert FinishChunk(e.c) in sched;
    }
  }

  /**
   * Every schedule is a subset of the same finite list of events without repetitions, so it has at most
   * |AllEvents| steps, and the block is finished exactly when it has that many.
   */
  lemma {:induction false} Termination(b: BlockResult, sched: seq<Event>)
    requires Valid(b, sched)
    ensures |sched| <= |AllEvents(b)|
    ensures Finished(b, Run(b, sched)) <==> |sched| == |AllEvents(b)|
    ensures Finished(b, Run(b, sched)) ==> multiset(sched) == multiset(AllEvents(b))
  {
    ScheduledEvents(b, sched);
    EventsUpToExact(b, |b.chunks|);
    SubsetLength(sched, AllEvents(b));
    if Finished(b, Run(b, sched)) {
      FinishedEvents(b, sched);
      NoDupSameElements(sched, AllEvents(b));
      SameMultisetLength(sched, AllEvents(b));
    } else {
      RunIsFold(b, sched);
    }
  }

  /** No deadlock: while the block is not finished some continuation can run. */
  lemma {:induction false} Progress(b: BlockResult, sched: seq<Event>) returns (e: Event)
    requires Valid(b, sched) && !Finished(b, Run(b, sched))
    ensures Enabled(b, Run(b, sched).settled, e) && Valid(b, sched + [e])
  {
    var settled := Run(b, sched).settled;
    var c :| 0 <= c < |b.chunks| && FinishChunk(c) !in settled;
    if FetchChunk(c) !in settled {
      e := FetchChunk(c);
    } else if t :| 0 <= t < |b.chunks[c].transactions| && CompleteTx(c, t) !in settled {
      e := CompleteTx(c, t);
    } else {
      e := FinishChunk(c);
    }
    var next := sched + [e];
    assert next != [] && next[|next| - 1] == e && next[..|next| - 1] == sched;
  }

  /** Every partial schedule extends to one that finishes the block: assembly always terminates. */
  lemma {:induction false} Completable(b: BlockResult, sched: seq<Event>) returns (full: seq<Event>)
    requires Valid(b, sched)
    ensures Valid(b, full) && sched <= full && Finished(b, Run(b, full))
    decreases |AllEvents(b)| - |sched|
  {
    full := sched;
    if !Finished(b, Run(b, sched)) {
      Termination(b, sched);
      var e := Progress(b, sched);
      full := Completable(b, sched + [e]);
      assert sched <= sched + [e];
    }
  }

  // Conservation.

  function ChunkTransactions(header: Header, chunk: Chunk): seq<NearTransaction> {
    seq(|chunk.transactions|, t requires 0 <= t < |chunk.transactions| =>
      WrapTransaction(header, chunk.transactions[t]))
  }

  function ChunkTransactionsOf(header: Header): Chunk -> seq<NearTransaction> {
    chunk => ChunkTransactions(header, chunk)
  }

  /** Every transaction of every chunk, in chunk order. */
  function AllTransactions(b: BlockResult): seq<NearTransaction> {
    FlatMap(ChunkTransactionsOf(b.header), b.chunks)
  }

  /** Every receipt of every chunk, in chunk order. */
  function AllReceipts(b: BlockResult): seq<WrappedReceipt> { FlatMap(WrapReceipts, b.chunks) }

  /** Every action of every chunk. */
  function AllActions(b: BlockResult): seq<ActionView> {
    FlatMap(TransactionActions, AllTransactions(b)) + FlatMap(ReceiptActions, AllReceipts(b))
  }

  lemma {:induction false} CompletionsContribute(b: BlockResult, c: nat, n: nat)
    requires c < |b.chunks| && n <= |b.chunks[c].transactions|
    ensures FlatMap(TransactionsBy(b), Completions(c, n)) == ChunkTransactions(b.header, b.chunks[c])[..n]
    ensures FlatMap(ReceiptsBy(b), Completions(c, n)) == []
  {
    if n > 0 {
      CompletionsContribute(b, c, n - 1);
      assert Completions(c, n) == Completions(c, n - 1) + [CompleteTx(c, n - 1)];
      FlatMapSnoc(TransactionsBy(b), Completions(c, n - 1), CompleteTx(c, n - 1));
      FlatMapSnoc(ReceiptsBy(b), Completions(c, n - 1), CompleteTx(c, n - 1));
    }
  }

  lemma {:induction false} ChunkContributes(b: BlockResult, c: nat)
    requires c < |b.chunks|
    ensures FlatMap(TransactionsBy(b), ChunkEvents(b, c)) == ChunkTransactions(b.header, b.chunks[c])
    ensures FlatMap(ReceiptsBy(b), ChunkEvents(b, c)) == WrapReceipts(b.chunks[c])
  {
    var n := |b.chunks[c].transactions|;
    var mid := Completions(c, n);
    CompletionsContribute(b, c, n);
    FlatMapSnoc(TransactionsBy(b), [FetchChunk(c)] + mid, FinishChunk(c));
    FlatMapSnoc(ReceiptsBy(b), [FetchChunk(c)] + mid, FinishChunk(c));
    FlatMapConcat(TransactionsBy(b), [FetchChunk(c)], mid);
    FlatMapConcat(ReceiptsBy(b), [FetchChunk(c)], mid);
    FlatMapSingle(TransactionsBy(b), FetchChunk(c));
    FlatMapSingle(ReceiptsBy(b), FetchChunk(c));
  }

  lemma {:induction false} EventsContribute(b: BlockResult, n: nat)
    requires n <= |b.chunks|
    ensures FlatMap(TransactionsBy(b), EventsUpTo(b, n)) == FlatMap(ChunkTransactionsOf(b.header), b.chunks[..n])
    ensures FlatMap(ReceiptsBy(b), EventsUpTo(b, n)) == FlatMap(WrapReceipts, b.chunks[..n])
    ensures |EventsUpTo(b, n)| == 2 * n + |FlatMap(ChunkTransactionsOf(b.header), b.chunks[..n])|
  {
    if n > 0 {
      EventsContribute(b, n - 1);
      ChunkContributes(b, n - 1);
      FlatMapConcat(TransactionsBy(b), EventsUpTo(b, n - 1), ChunkEvents(b, n - 1));
      FlatMapConcat(ReceiptsBy(b), EventsUpTo(b, n - 1), ChunkEvents(b, n - 1));
      assert b.chunks[..n] == b.chunks[..n - 1] + [b.chunks[n - 1]];
      FlatMapSnoc(ChunkTransactionsOf(b.header), b.chunks[..n - 1], b.chunks[n - 1]);
      FlatMapSnoc(WrapReceipts, b.chunks[..n - 1], b.chunks[n - 1]);
    }
  }

  /** The number of steps of every finished schedule: two per chunk and one per transaction. */
  lemma {:induction false} StepCount(b: BlockResult, sched: seq<Event>)
    requires Complete(b, sched)
    ensures |sched| == 2 * |b.chunks| + |AllTransactions(b)|
  {
    Termination(b, sched);
    EventsContribute(b, |b.chunks|);
    assert b.chunks[..|b.chunks|] == b.chunks;
  }

  lemma {:induction false} OriginalsConserved(b: BlockResult, sched: seq<Event>)
    requires Complete(b, sched)
    ensures multiset(Originals(b, sched)) == multiset(AllReceipts(b))
    ensures multiset(Run(b, sched).transactions) == multiset(AllTransactions(b))
  {
    Termination(b, sched);
    RunIsFold(b, sched);
    EventsContribute(b, |b.chunks|);
    assert b.chunks[..|b.chunks|] == b.chunks;
    FlatMapPermutation(TransactionsBy(b), sched, AllEvents(b));
    FlatMapPermutation(ReceiptsBy(b), sched, AllEvents(b));
  }

  lemma {:induction false} PartitionCounts(s: seq<ActionView>)
    ensures multiset(s) == multiset(Filter(HasNoReceipt, s)) + multiset(Filter(HasReceipt, s))
  {
    if s != [] {
      PartitionCounts(s[1..]);
      assert s == [s[0]] + s[1..];
    }
  }

  /** Whatever the schedule, the finished block holds exactly the items of all chunks, reordered. */
  lemma {:induction false} Conservation(b: BlockResult, sched: seq<Event>)
    requires Complete(b, sched)
    ensures var s := Run(b, sched);
      && multiset(s.transactions) == multiset(AllTransactions(b))
      && multiset(s.receipts) == multiset(Map(ViewOf, AllReceipts(b)))
      && multiset(s.actions) == multiset(AllActions(b))
  {
    var s := Run(b, sched);
    OriginalsConserved(b, sched);
    ActionsPartition(b, sched);
    MapPermutation(ViewOf, Originals(b, sched), AllReceipts(b));
    PartitionCounts(s.actions);
    FlatMapPermutation(TransactionActions, s.transactions, AllTransactions(b));
    FlatMapPermutation(ReceiptActions, Originals(b, sched), AllReceipts(b));
  }

  function ChunkTransactionActions(b: BlockResult, c: nat): seq<ActionView>
    requires c < |b.chunks|
  {
    FlatMap(TransactionActions, ChunkTransactions(b.header, b.chunks[c]))
  }

  function ChunkReceipts(b: BlockResult, c: nat): seq<ReceiptView>
    requires c < |b.chunks|
  {
    Map(ViewOf, WrapReceipts(b.chunks[c]))
  }

  function ChunkReceiptActions(b: BlockResult, c: nat): seq<ActionView>
    requires c < |b.chunks|
  {
    FlatMap(ReceiptActions, WrapReceipts(b.chunks[c]))
  }

  lemma {:induction false} TransactionActionsPrecede(b: BlockResult, sched: seq<Event>, c: nat)
    requires Valid(b, sched) && c < |b.chunks| && Enabled(b, Run(b, sched).settled, FinishChunk(c))
    ensures multiset(ChunkTransactionActions(b, c)) <= multiset(Run(b, sched).actions)
  {
    var s := Run(b, sched);
    var n := |b.chunks[c].transactions|;
    ScheduledEvents(b, sched);
    RunIsFold(b, sched);
    forall e | e in Completions(c, n) ensures e in sched {
      var t :| 0 <= t < n && Completions(c, n)[t] == e;
    }
    SubsetMultiset(Completions(c, n), sched);
    FlatMapSubset(TransactionsBy(b), Completions(c, n), sched);
    CompletionsContribute(b, c, n);
    assert ChunkTransactions(b.header, b.chunks[c])[..n] == ChunkTransactions(b.header, b.chunks[c]);
    FlatMapSubset(TransactionActions, ChunkTransactions(b.header, b.chunks[c]), s.transactions);
    ActionsPartition(b, sched);
    PartitionCounts(s.actions);
  }

  /**
   * Once a chunk is finished its receipts `mid` and their actions `own` stay contiguous, ordered by receipt
   * position and then by action position, and every action of the chunk's transactions, as often as it occurs
   * there, comes before them.
   */
  lemma {:induction false} ChunkOrder(b: BlockResult, sched: seq<Event>, c: nat)
    returns (before: seq<ActionView>, own: seq<ActionView>, after: seq<ActionView>,
             rBefore: seq<ReceiptView>, mid: seq<ReceiptView>, rAfter: seq<ReceiptView>)
    requires Valid(b, sched) && c < |b.chunks| && FinishChunk(c) in Run(b, sched).settled
    ensures Run(b, sched).actions == before + own + after
    ensures Run(b, sched).receipts == rBefore + mid + rAfter
    ensures ReceiptsInOrder(b.chunks[c], mid) && ReceiptActionsInOrder(b.chunks[c], mid, own)
    ensures multiset(ChunkTransactionActions(b, c)) <= multiset(before)
  {
    own, mid := ChunkReceiptActions(b, c), ChunkReceipts(b, c);
    before, after, rBefore, rAfter := ChunkContiguous(b, sched, c);
    ChunkInOrder(b, c);
  }

  lemma {:induction false} ChunkContiguous(b: BlockResult, sched: seq<Event>, c: nat)
    returns (before: seq<ActionView>, after: seq<ActionView>, rBefore: seq<ReceiptView>, rAfter: seq<ReceiptView>)
    requires Valid(b, sched) && c < |b.chunks| && FinishChunk(c) in Run(b, sched).settled
    ensures Run(b, sched).actions == before + ChunkReceiptActions(b, c) + after
    ensures Run(b, sched).receipts == rBefore + ChunkReceipts(b, c) + rAfter
    ensures multiset(ChunkTransactionActions(b, c)) <= multiset(before)
  {
    ValidPrefix(b, sched);
    var pre, e := sched[..|sched| - 1], sched[|sched| - 1];
    var s := Run(b, pre);
    var own, rOwn := ChunkReceiptActions(b, c), ChunkReceipts(b, c);
    if e == FinishChunk(c) {
      before, after, rBefore, rAfter := s.actions, [], s.receipts, [];
      TransactionActionsPrecede(b, pre, c);
    } else {
      before, after, rBefore, rAfter := ChunkContiguous(b, pre, c);
      var more, rMore := AppliedGrows(b, s, e);
      ConcatAssociative(before + own, after, more);
      ConcatAssociative(rBefore + rOwn, rAfter, rMore);
      after, rAfter := after + more, rAfter + rMore;
    }
  }

  lemma {:induction false} AppliedGrows(b: BlockResult, s: State, e: Event)
    returns (more: seq<ActionView>, rMore: seq<ReceiptView>)
    requires Enabled(b, s.settled, e)
    ensures Apply(b, s, e).actions == s.actions + more
    ensures Apply(b, s, e).receipts == s.receipts + rMore
  {
    match e
    case FetchChunk(_) => more, rMore := [], [];
    case CompleteTx(c, t) =>
      more, rMore := TransactionActions(WrapTransaction(b.header, b.chunks[c].transactions[t])), [];
    case FinishChunk(c) =>
      more, rMore := FlatMap(ReceiptActions, WrapReceipts(b.chunks[c])), Map(ViewOf, WrapReceipts(b.chunks[c]));
  }
}
