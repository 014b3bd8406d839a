/** `wrapBlock` on the heap: the objects it builds, the references it sets and the arrays it pushes to. */
module WrapBlock {
  import opened Seqs
  import opened NearTypes
  import opened Assembly

  /** An action; `receipt` stays null unless the receipt loop links it. */
  class NearAction {
    const id: nat
    const value: ActionValue
    const transaction: Option<NearTransaction>
    var receipt: NearTransactionReceipt?

    constructor (action: ActionValue, id: nat, transaction: Option<NearTransaction>)
      ensures this.id == id && this.value == ParseNearAction(action) && this.transaction == transaction
      ensures receipt == null
    {
      this.id, this.value, this.transaction := id, ParseNearAction(action), transaction;
      this.receipt := null;
    }

    function View(): ActionView
      reads this
    {
      ActionView(id, value, transaction, if receipt == null then None else Some(receipt.View()))
    }
  }

  /** The mutable `Action` part of an action receipt. */
  class ReceiptAction {
    var actions: array?<NearAction>
    const signerId: string
    const details: CallDetails

    constructor (actions: array<NearAction>, signerId: string, details: CallDetails)
      ensures this.actions == actions && this.signerId == signerId && this.details == details
    {
      this.actions, this.signerId, this.details := actions, signerId, details;
    }
  }

  class NearTransactionReceipt {
    const id: nat
    const blockHeight: int
    const receiptId: string
    const predecessorId: string
    const receiverId: string
    const action: ReceiptAction?
    const data: string
    const dataId: string

    constructor (id: nat, blockHeight: int, item: RawReceipt, action: ReceiptAction?)
      requires item.body.RawAction? <==> action != null
      requires action != null ==> action.signerId == item.body.signerId && action.details == item.body.details
      ensures View() == WrapReceipt(item, id, blockHeight).view
      ensures this.action == action
    {
      this.id, this.blockHeight := id, blockHeight;
      this.receiptId, this.predecessorId, this.receiverId := item.receiptId, item.predecessorId, item.receiverId;
      this.action := action;
      this.data := if item.body.RawData? then item.body.data else "";
      this.dataId := if item.body.RawData? then item.body.dataId else "";
    }

    function View(): ReceiptView {
      ReceiptView(id, blockHeight, receiptId, predecessorId, receiverId,
        if action != null then ActionBody(action.signerId, action.details) else DataBody(data, dataId))
    }
  }

  /** The heap actions look like the given views, position by position. */
  ghost predicate Show(actions: seq<NearAction>, views: seq<ActionView>)
    reads actions
  {
    |actions| == |views| && forall i :: 0 <= i < |actions| ==> actions[i].View() == views[i]
  }

  function ReceiptViews(receipts: seq<NearTransactionReceipt>): (r: seq<ReceiptView>)
    ensures |r| == |receipts|
    ensures forall i :: 0 <= i < |receipts| ==> r[i] == receipts[i].View()
  {
    seq(|receipts|, i requires 0 <= i < |receipts| => receipts[i].View())
  }

  lemma {:induction false} ShowConcat(s: seq<NearAction>, t: seq<NearAction>, v: seq<ActionView>, u: seq<ActionView>)
    requires Show(s, v) && Show(t, u)
    ensures Show(s + t, v + u)
  {
  }

  /** `actions.map((action, id) => wrapAction(action, id, transaction))` */
  method WrapActions(values: seq<ActionValue>, transaction: Option<NearTransaction>)
    returns (actions: array<NearAction>)
    ensures fresh(actions) && actions.Length == |values|
    ensures forall i :: 0 <= i < |values| ==> fresh(actions[i])
    ensures forall i :: 0 <= i < |values| ==> actions[i].View() == WrapAction(values[i], i, transaction)
    ensures forall i :: 0 <= i < |values| ==>
      && actions[i].id == i && actions[i].transaction == transaction && actions[i].receipt == null
      && ParsedFrom(values[i], actions[i].value)
    ensures forall i, j :: 0 <= i < j < |values| ==> actions[i] != actions[j]
  {
    var list: seq<NearAction> := [];
    for i := 0 to |values|
      invariant |list| == i
      invariant forall k :: 0 <= k < i ==> fresh(list[k])
      invariant forall k :: 0 <= k < i ==> list[k].View() == WrapAction(values[k], k, transaction)
      invariant forall k, l :: 0 <= k < l < i ==> list[k] != list[l]
    {
      var action := new NearAction(values[i], i, transaction);
      list := list + [action];
    }
    actions := new NearAction[|list|](i requires 0 <= i < |list| => list[i]);
  }

  /** The actions of a wrapped receipt before the receipt loop links them. */
  function UnlinkedActions(w: WrappedReceipt): (r: seq<ActionView>)
    ensures |r| == |w.actions|
  {
    seq(|w.actions|, i requires 0 <= i < |w.actions| => WrapAction(w.actions[i], i, None))
  }

  /** `receipt` is `w` with its actions `kids` attached and not linked yet. */
  ghost predicate Attached(receipt: NearTransactionReceipt, kids: seq<NearAction>, w: WrappedReceipt)
    reads receipt.action, if receipt.action == null then null else receipt.action.actions, kids
  {
    && receipt.View() == w.view
    && Show(kids, UnlinkedActions(w))
    && (receipt.action == null ==> kids == [])
    && (receipt.action != null ==> receipt.action.actions != null && receipt.action.actions[..] == kids)
  }

  /** `wrapTransactionReceipt` for one item. */
  method WrapOneReceipt(item: RawReceipt, id: nat, blockHeight: int)
    returns (receipt: NearTransactionReceipt, ghost kids: seq<NearAction>)
    ensures fresh(receipt) && Attached(receipt, kids, WrapReceipt(item, id, blockHeight))
    ensures receipt.action != null ==> fresh(receipt.action) && fresh(receipt.action.actions)
    ensures forall a :: a in kids ==> fresh(a)
  {
    match item.body
    case RawAction(values, signerId, details) =>
      var actions := WrapActions(values, None);
      var action := new ReceiptAction(actions, signerId, details);
      receipt := new NearTransactionReceipt(id, blockHeight, item, action);
      kids := actions[..];
    case RawData(_, _) =>
      receipt := new NearTransactionReceipt(id, blockHeight, item, null);
      kids := [];
  }

  /** Receipts `rs` share no action object and no `Action` part. */
  ghost predicate Apart(rs: seq<NearTransactionReceipt>, kids: seq<seq<NearAction>>)
  {
    && |rs| == |kids|
    && (forall i, j :: 0 <= i < j < |rs| && rs[i].action != null ==> rs[i].action != rs[j].action)
    && (forall i, j, a :: 0 <= i < j < |rs| && a in kids[i] ==> a !in kids[j])
  }

  /** Everything the receipt loop may change is in `parts`. */
  ghost predicate Within(rs: seq<NearTransactionReceipt>, kids: seq<seq<NearAction>>, parts: set<object>)
    requires |rs| == |kids|
  {
    && (forall i :: 0 <= i < |rs| && rs[i].action != null ==> rs[i].action in parts)
    && (forall i, a :: 0 <= i < |kids| && a in kids[i] ==> a in parts)
  }

  /** `wrapTransactionReceipt`: all receipts of a chunk, none of them linked yet. */
  method WrapTransactionReceipts(chunk: Chunk)
    returns (rs: seq<NearTransactionReceipt>, ghost kids: seq<seq<NearAction>>, ghost parts: set<object>)
    ensures Apart(rs, kids) && Within(rs, kids, parts) && fresh(parts) && |rs| == |chunk.receipts|
    ensures forall i :: 0 <= i < |rs| ==> Attached(rs[i], kids[i], WrapReceipts(chunk)[i])
    ensures ReceiptsInOrder(chunk, ReceiptViews(rs))
  {
    rs, kids, parts := [], [], {};
    for n := 0 to |chunk.receipts|
      invariant |rs| == n && Apart(rs, kids)
      invariant forall i :: 0 <= i < n ==> Attached(rs[i], kids[i], WrapReceipts(chunk)[i])
      invariant Within(rs, kids, parts) && fresh(parts)
    {
      ghost var kid;
      var receipt;
      receipt, kid := WrapOneReceipt(chunk.receipts[n], n, chunk.heightIncluded);
      rs, kids := rs + [receipt], kids + [kid];
      parts := parts + (if receipt.action == null then {} else {receipt.action}) + (set a | a in kid);
    }
  }

  /**
   * The receipt loop before its pass `i`: the actions of the first `i` receipts are `linked`, each to a
   * receipt of the chunk, and those receipts have lost their lists; the later receipts are untouched.
   */
  ghost predicate Linking(
    rs: seq<NearTransactionReceipt>, kids: seq<seq<NearAction>>, ws: seq<WrappedReceipt>, i: nat,
    linked: seq<NearAction>)
    reads *
  {
    && i <= |rs| == |ws| && Apart(rs, kids)
    && Show(linked, FlatMap(ReceiptActions, ws[..i]))
    && (forall a :: a in linked ==> a.receipt in rs)
    && (forall a, j :: a in linked && i <= j < |rs| ==> a !in kids[j])
    && (forall j :: i <= j < |rs| ==> Attached(rs[j], kids[j], ws[j]))
    && (forall j :: 0 <= j < i && rs[j].action != null && rs[j].action.actions != null ==>
          rs[j].action.actions.Length == 0)
  }

  /** The block under assembly; its three arrays are shared by all continuations. */
  class NearBlock {
    const header: Header
    var transactions: seq<NearTransaction>
    var actions: seq<NearAction>
    var receipts: seq<NearTransactionReceipt>

    constructor (header: Header)
      ensures this.header == header && Shows(INITIAL_STATE)
    {
      this.header := header;
      this.transactions, this.actions, this.receipts := [], [], [];
    }

    /**
     * The heap block is the given machine state: same arrays, every link goes to a receipt object stored
     * in this block, and no stored receipt still holds an action. (The loop nulls the list once per action,
     * so an action receipt without actions keeps its empty list.)
     */
    ghost predicate Shows(s: State)
      reads this, actions, set r | r in receipts && r.action != null :: r.action
    {
      && transactions == s.transactions
      && Show(actions, s.actions)
      && ReceiptViews(receipts) == s.receipts
      && (forall a :: a in actions && a.receipt != null ==> a.receipt in receipts)
      && (forall r :: r in receipts && r.action != null && r.action.actions != null ==> r.action.actions.Length == 0)
    }

    /** What a handler traversal reads of the block. */
    ghost predicate Presents(v: BlockView)
      reads this, actions
    {
      && header == v.header && transactions == v.transactions
      && Show(actions, v.actions) && ReceiptViews(receipts) == v.receipts
    }

    /** The continuation after `api.txStatusReceipts`. */
    method CompleteTransaction(transaction: RawTransaction, ghost b: BlockResult, ghost s: State, ghost e: Event)
      requires Shows(s) && header == b.header && Enabled(b, s.settled, e)
      requires e.CompleteTx? && transaction == b.chunks[e.c].transactions[e.t]
      modifies this
      ensures Shows(Apply(b, s, e))
    {
      var wrappedTx := WrapTransaction(header, transaction);
      var nearActions := WrapActions(transaction.actions, Some(wrappedTx));
      ghost var pushed := nearActions[..];
      ShowConcat(actions, pushed, s.actions, TransactionActions(wrappedTx));
      transactions := transactions + [wrappedTx];
      actions := actions + nearActions[..];
      assert actions == old(actions) + pushed;
    }

    /**
     * The loop over one receipt's actions. The list is read once, so nulling the receipt's reference to it
     * in the first pass does not end the loop: every action is visited and linked to its own receipt.
     */
    method LinkReceipt(receipt: NearTransactionReceipt, ghost kids: seq<NearAction>, ghost w: WrappedReceipt)
      requires receipt.action != null && Attached(receipt, kids, w)
      modifies `actions, receipt.action, kids
      ensures actions == old(actions) + kids
      ensures Show(kids, ReceiptActions(w))
      ensures forall a :: a in kids ==> a.receipt == receipt
      ensures receipt.action.actions != null ==> receipt.action.actions.Length == 0
    {
      var list := receipt.action.actions;
      for k := 0 to list.Length
        invariant list[..] == kids
        invariant actions == old(actions) + kids[..k]
        invariant forall l :: 0 <= l < k ==> kids[l].receipt == receipt
        invariant 0 < k ==> receipt.action.actions == null
        invariant k == 0 ==> receipt.action.actions == list
      {
        var action := list[k];
        action.receipt := receipt;
        action.receipt.action.actions := null;
        actions := actions + [action];
        assert kids[..k + 1] == kids[..k] + [kids[k]];
      }
      assert kids[..|kids|] == kids;
      forall l | 0 <= l < |kids| ensures kids[l].View() == ReceiptActions(w)[l] {
        assert old(kids[l].View()) == UnlinkedActions(w)[l];
      }
    }

    /** One pass of the loop over a chunk's receipts. */
    method LinkNext(
      rs: seq<NearTransactionReceipt>, ghost kids: seq<seq<NearAction>>, ghost ws: seq<WrappedReceipt>, i: nat,
      ghost linked: seq<NearAction>)
      returns (ghost linked': seq<NearAction>)
      requires i < |rs| && Linking(rs, kids, ws, i, linked)
      modifies `actions, rs[i].action, kids[i]
      ensures linked' == linked + kids[i]
      ensures actions == old(actions) + kids[i]
      ensures Linking(rs, kids, ws, i + 1, linked')
    {
      var receipt := rs[i];
      if receipt.action != null {
        LinkReceipt(receipt, kids[i], ws[i]);
      }
      forall j | i < j < |rs| ensures Attached(rs[j], kids[j], ws[j]) {
        assert old(Attached(rs[j], kids[j], ws[j]));
        forall k | 0 <= k < |kids[j]| ensures kids[j][k].View() == old(kids[j][k].View()) {
          assert kids[j][k] in kids[j] && kids[j][k] !in kids[i];
        }
      }
      assert Show(linked, FlatMap(ReceiptActions, ws[..i]));
      ShowConcat(linked, kids[i], FlatMap(ReceiptActions, ws[..i]), ReceiptActions(ws[i]));
      FlatMapStep(ReceiptActions, ws, i);
      linked' := linked + kids[i];
    }

    /** The loop over a chunk's receipts. */
    method LinkReceipts(
      rs: seq<NearTransactionReceipt>, ghost kids: seq<seq<NearAction>>, ghost ws: seq<WrappedReceipt>,
      ghost parts: set<object>)
      returns (ghost linked: seq<NearAction>)
      requires Linking(rs, kids, ws, 0, []) && Within(rs, kids, parts)
      modifies `actions, parts
      ensures actions == old(actions) + linked
      ensures Show(linked, FlatMap(ReceiptActions, ws))
      ensures forall a :: a in linked ==> a.receipt in rs
      ensures forall r :: r in rs && r.action != null && r.action.actions != null ==> r.action.actions.Length == 0
    {
      linked := [];
      for i := 0 to |rs|
        invariant actions == old(actions) + linked
        invariant Linking(rs, kids, ws, i, linked)
      {
        ghost var linked' := LinkNext(rs, kids, ws, i, linked);
        ConcatAssociative(old(actions), linked, kids[i]);
        linked := linked';
      }
      assert ws[..|rs|] == ws;
    }

    /** The tail of a chunk: wrap its receipts, link their actions, then push the receipts. */
    method FinishChunk(chunk: Chunk, ghost b: BlockResult, ghost s: State, ghost e: Event)
      requires Shows(s) && header == b.header && Enabled(b, s.settled, e)
      requires e.FinishChunk? && chunk == b.chunks[e.c]
      modifies this
      ensures Shows(Apply(b, s, e))
    {
      ghost var ws := WrapReceipts(chunk);
      var txReceipts;
      ghost var kids;
      ghost var parts;
      txReceipts, kids, parts := WrapTransactionReceipts(chunk);
      ghost var linked := LinkReceipts(txReceipts, kids, ws, parts);
      assert Show(old(actions), s.actions);
      ShowConcat(old(actions), linked, s.actions, FlatMap(ReceiptActions, ws));
      PushReceipts(txReceipts, old(actions), linked, b, s, e);
    }

    /** `nearBlock.receipts.push(...txReceipts)`: every link now goes to a stored receipt. */
    method PushReceipts(
      txReceipts: seq<NearTransactionReceipt>, ghost before: seq<NearAction>, ghost linked: seq<NearAction>,
      ghost b: BlockResult, ghost s: State, ghost e: Event)
      requires e.FinishChunk? && Enabled(b, s.settled, e)
      requires ReceiptViews(txReceipts) == Map(ViewOf, WrapReceipts(b.chunks[e.c]))
      requires transactions == s.transactions && ReceiptViews(receipts) == s.receipts
      requires actions == before + linked && Show(actions, Apply(b, s, e).actions)
      requires forall a :: a in before && a.receipt != null ==> a.receipt in receipts
      requires forall a :: a in linked ==> a.receipt in txReceipts
      requires forall r :: r in receipts + txReceipts && r.action != null && r.action.actions != null ==>
        r.action.actions.Length == 0
      modifies `receipts
      ensures Shows(Apply(b, s, e))
    {
      receipts := receipts + txReceipts;
    }
  }

  lemma {:induction false} ValidTake(b: BlockResult, sched: seq<Event>, i: nat)
    requires Valid(b, sched) && i <= |sched|
    ensures Valid(b, sched[..i])
    decreases |sched|
  {
    if i < |sched| {
      ValidTake(b, sched[..|sched| - 1], i);
      assert sched[..|sched| - 1][..i] == sched[..i];
    } else {
      assert sched[..i] == sched;
    }
  }

  /**
   * `wrapBlock` under the event order `sched`: the heap block it builds shows exactly the state the event
   * machine reaches.
   */
  method WrapBlock(b: BlockResult, sched: seq<Event>) returns (block: NearBlock)
    requires Valid(b, sched)
    ensures fresh(block) && block.header == b.header && block.Shows(Run(b, sched))
  {
    block := new NearBlock(b.header);
    for i := 0 to |sched|
      invariant block.header == b.header && Valid(b, sched[..i]) && block.Shows(Run(b, sched[..i]))
    {
      ValidTake(b, sched, i + 1);
      ValidPrefix(b, sched[..i + 1]);
      assert sched[..i + 1][..i] == sched[..i];
      ghost var s := Run(b, sched[..i]);
      match sched[i]
      case FetchChunk(_) =>
      case CompleteTx(c, t) =>
        block.CompleteTransaction(b.chunks[c].transactions[t], b, s, sched[i]);
      case FinishChunk(c) =>
        block.FinishChunk(b.chunks[c], b, s, sched[i]);
    }
    assert sched[..|sched|] == sched;
  }
}
