/** The values that flow through the indexer: what the RPC node answers and what handlers are shown. */
module NearTypes {
  import opened Seqs

  /** The four kinds of handler, and of item, of the node. */
  datatype Kind = Block | Transaction | Action | Receipt

  /** FunctionCall arguments: a primitive string as answered, a String object once parsed. */
  datatype Args = Plain(text: string) | Boxed(text: string)

  /** The nine action payloads. Numbers and nested objects are opaque strings. */
  datatype ActionValue =
    | CreateAccount
    | DeployContract(code: string)
    | FunctionCall(methodName: string, args: Args)
    | Transfer(deposit: string)
    | Stake(stake: string, publicKey: string)
    | AddKey(publicKey: string, accessKey: string)
    | DeleteKey(publicKey: string)
    | DeleteAccount(beneficiaryId: string)
    | Delegate(publicKey: string)

  function TypeOf(v: ActionValue): string {
    match v
    case CreateAccount => "CreateAccount"
    case DeployContract(_) => "DeployContract"
    case FunctionCall(_, _) => "FunctionCall"
    case Transfer(_) => "Transfer"
    case Stake(_, _) => "Stake"
    case AddKey(_, _) => "AddKey"
    case DeleteKey(_) => "DeleteKey"
    case DeleteAccount(_) => "DeleteAccount"
    case Delegate(_) => "Delegate"
  }

  /** parseNearAction: FunctionCall arguments are boxed, every other payload is kept. */
  function ParseNearAction(v: ActionValue): ActionValue {
    if v.FunctionCall? then FunctionCall(v.methodName, Boxed(v.args.text)) else v
  }

  // What the RPC node answers for one block, chunk by chunk.

  datatype Header = Header(height: int, hash: string, timestamp: int, gasPrice: string)

  /** A transaction of a chunk together with the outcome the node reports for it. */
  datatype RawTransaction = RawTransaction(
    signerId: string, receiverId: string, actions: seq<ActionValue>, details: TransactionDetails,
    outcomeId: string, gasBurnt: nat, logs: seq<string>, receiptIds: seq<string>)

  /** Properties of a transaction the node's own code copies but does not look at. */
  datatype TransactionDetails = TransactionDetails(hash: string, nonce: string, publicKey: string, signature: string)

  datatype RawReceiptBody =
    | RawAction(actions: seq<ActionValue>, signerId: string, details: CallDetails)
    | RawData(data: string, dataId: string)

  datatype DataReceiver = DataReceiver(dataId: string, receiverId: string)

  /** Properties of an action receipt that are copied but not looked at. */
  datatype CallDetails = CallDetails(
    signerPublicKey: string, gasPrice: string, inputDataIds: seq<string>, outputDataReceivers: seq<DataReceiver>)

  datatype RawReceipt = RawReceipt(
    receiptId: string, predecessorId: string, receiverId: string, body: RawReceiptBody)

  datatype Chunk = Chunk(heightIncluded: int, transactions: seq<RawTransaction>, receipts: seq<RawReceipt>)

  datatype BlockResult = BlockResult(header: Header, chunks: seq<Chunk>)

  // What handlers are shown.

  datatype NearTransaction = NearTransaction(
    signerId: string, receiverId: string, actions: seq<ActionValue>, details: TransactionDetails,
    gasPrice: string, gasUsed: nat, blockHash: string, blockHeight: int, timestamp: int,
    id: string, logs: seq<string>, receiptIds: seq<string>)

  /** What stays readable on a stored receipt: the action list of an action receipt is nulled. */
  datatype ReceiptBody = ActionBody(signerId: string, details: CallDetails) | DataBody(data: string, dataId: string)

  datatype ReceiptView = ReceiptView(
    id: nat, blockHeight: int, receiptId: string, predecessorId: string, receiverId: string, body: ReceiptBody)

  /** An action with the two references the source may set on it. */
  datatype ActionView = ActionView(
    id: nat, value: ActionValue, transaction: Option<NearTransaction>, receipt: Option<ReceiptView>)

  /** A receipt as wrapped, before its action list is nulled. */
  datatype WrappedReceipt = WrappedReceipt(view: ReceiptView, actions: seq<ActionValue>)

  datatype BlockView = BlockView(
    header: Header, transactions: seq<NearTransaction>, actions: seq<ActionView>, receipts: seq<ReceiptView>)

  function WrapTransaction(header: Header, txn: RawTransaction): NearTransaction {
    NearTransaction(
      txn.signerId, txn.receiverId, txn.actions, txn.details,
      header.gasPrice, txn.gasBurnt, header.hash, header.height, header.timestamp,
      txn.outcomeId, txn.logs, txn.receiptIds)
  }

  function WrapAction(v: ActionValue, id: nat, transaction: Option<NearTransaction>): ActionView {
    ActionView(id, ParseNearAction(v), transaction, None)
  }

  function WrapReceipt(item: RawReceipt, id: nat, blockHeight: int): WrappedReceipt {
    match item.body
    case RawAction(actions, signerId, details) =>
      var body := ActionBody(signerId, details);
      WrappedReceipt(
        ReceiptView(id, blockHeight, item.receiptId, item.predecessorId, item.receiverId, body), actions)
    case RawData(data, dataId) =>
      var body := DataBody(data, dataId);
      WrappedReceipt(
        ReceiptView(id, blockHeight, item.receiptId, item.predecessorId, item.receiverId, body), [])
  }

  function ViewOf(w: WrappedReceipt): ReceiptView { w.view }

  /** The actions a transaction contributes to its block, in order. */
  function TransactionActions(tx: NearTransaction): (r: seq<ActionView>)
    ensures |r| == |tx.actions|
  {
    seq(|tx.actions|, i requires 0 <= i < |tx.actions| => WrapAction(tx.actions[i], i, Some(tx)))
  }

  /** The actions a receipt contributes to its block, in order, linked to the receipt. */
  function ReceiptActions(w: WrappedReceipt): (r: seq<ActionView>)
    ensures |r| == |w.actions|
  {
    seq(|w.actions|, i requires 0 <= i < |w.actions| => WrapAction(w.actions[i], i, None).(receipt := Some(w.view)))
  }

  predicate HasReceipt(a: ActionView) { a.receipt.Some? }

  predicate HasNoReceipt(a: ActionView) { a.receipt.None? }

  /** Shape of every action the block assembly stores: exactly one owner, payload parsed. */
  predicate Produced(a: ActionView) {
    && (a.transaction.Some? <==> a.receipt.None?)
    && ParseNearAction(a.value) == a.value
    && (a.value.FunctionCall? ==> a.value.args.Boxed?)
  }
}
