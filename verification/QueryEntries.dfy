/** Dictionary query entries: what they denote, and when a compiled filter means what the run-time filter means. */
module QueryEntries {
  import opened Seqs
  import opened NearTypes
  import opened Filters
  import opened Assembly

  datatype Condition = Condition(field: string, value: string, matcher: string)

  datatype Entry = Entry(entity: string, conditions: seq<Condition>)

  /** An indexed item, as a map from filter field names to strings. */
  type Row = map<string, string>

  function ToCondition(field: Field): Condition { Condition(field.key, field.value, "equalTo") }

  function TxFilterToQueryEntry(filter: seq<Field>): Entry { Entry("transactions", Map(ToCondition, filter)) }

  function ReceiptFilterToQueryEntry(filter: seq<Field>): Entry { Entry("receipts", Map(ToCondition, filter)) }

  function ActionFilterToQueryEntry(filter: seq<Field>): Entry { Entry("actions", Map(ToCondition, filter)) }

  function TransactionRow(tx: NearTransaction): Row {
    map["sender" := tx.signerId, "receiver" := tx.receiverId]
  }

  function ReceiptRow(r: ReceiptView): Row {
    var row := map["sender" := r.predecessorId, "receiver" := r.receiverId];
    if r.body.ActionBody? then row["signer" := r.body.signerId] else row
  }

  /** The string properties `mappingFilterAction` projects out of a payload. */
  function PayloadRow(v: ActionValue): Row {
    var mapping := MappingFilterAction(TypeOf(v));
    if mapping.None? then map[]
    else map key | key in mapping.value && MappedProperty(v, mapping.value, key).Text?
                 :: MappedProperty(v, mapping.value, key).text
  }

  /** An action is indexed under its payload, its type, and the sender and receiver of its owner. */
  function ActionRow(a: ActionView): Row {
    var row := PayloadRow(a.value)["type" := TypeOf(a.value)];
    if a.receipt.Some? then
      row["sender" := a.receipt.value.predecessorId]["receiver" := a.receipt.value.receiverId]
    else if a.transaction.Some? then
      row["sender" := a.transaction.value.signerId]["receiver" := a.transaction.value.receiverId]
    else row
  }

  predicate ConditionHolds(c: Condition, row: Row) {
    c.field in row && row[c.field] == c.value
  }

  predicate EntryHolds(e: Entry, row: Row) {
    forall c :: c in e.conditions ==> ConditionHolds(c, row)
  }

  /** Condition by condition, an entry asks for equality with each property of its filter, in their order. */
  lemma {:induction false} CompiledEntries(f: seq<Field>)
    ensures forall e :: e in [TxFilterToQueryEntry(f), ReceiptFilterToQueryEntry(f), ActionFilterToQueryEntry(f)] ==>
      && |e.conditions| == |f|
      && forall i :: 0 <= i < |f| ==>
           && e.conditions[i].field == f[i].key && e.conditions[i].value == f[i].value
           && e.conditions[i].matcher == "equalTo"
    ensures TxFilterToQueryEntry(f).entity == "transactions" && ReceiptFilterToQueryEntry(f).entity == "receipts"
    ensures ActionFilterToQueryEntry(f).entity == "actions"
  {
  }

  lemma {:induction false} CompiledConditions(filter: seq<Field>, row: Row)
    ensures (forall c :: c in Map(ToCondition, filter) ==> ConditionHolds(c, row)) <==>
      forall x :: x in filter ==> x.key in row && row[x.key] == x.value
  {
    forall x | x in filter ensures ToCondition(x) in Map(ToCondition, filter) {
      var i :| 0 <= i < |filter| && filter[i] == x;
      assert Map(ToCondition, filter)[i] == ToCondition(x);
    }
    if forall c :: c in Map(ToCondition, filter) ==> ConditionHolds(c, row) {
      forall x | x in filter ensures x.key in row && row[x.key] == x.value {
        assert ConditionHolds(ToCondition(x), row);
      }
    }
  }

  const OWNER_KEYS := ["sender", "receiver"]

  const RECEIPT_KEYS := ["sender", "receiver", "signer"]

  /** Only the given properties, all with non-empty values. */
  predicate Usual(filter: seq<Field>, keys: seq<string>) {
    forall x :: x in filter ==> x.key in keys && x.value != ""
  }

  /** `Differs` read off the list of properties. */
  lemma {:induction false} DiffersMember(f: seq<Field>, key: string, actual: string)
    requires IsObject(f)
    ensures Differs(f, key, actual) <==> exists x :: x in f && x.key == key && x.value != "" && x.value != actual
  {
    if Get(f, key).Some? {
      GetMember(f, key, Get(f, key).value);
      assert Field(key, Get(f, key).value) in f;
    }
    forall x | x in f && x.key == key ensures Get(f, key) == Some(x.value) {
      GetMember(f, key, x.value);
    }
  }

  /** `filterTransaction` property by property: a missing filter, other properties and empty values accept all. */
  lemma {:induction false} FilterTransactionExact(tx: NearTransaction, f: seq<Field>)
    requires IsObject(f)
    ensures FilterTransaction(tx, None)
    ensures FilterTransaction(tx, Some(f)) <==> forall x :: x in f ==>
      && (x.key == "sender" ==> x.value == "" || x.value == tx.signerId)
      && (x.key == "receiver" ==> x.value == "" || x.value == tx.receiverId)
  {
    DiffersMember(f, "sender", tx.signerId);
    DiffersMember(f, "receiver", tx.receiverId);
  }

  /** `filterReceipt` property by property: a signer can only be that of an action receipt. */
  lemma {:induction false} FilterReceiptExact(r: ReceiptView, f: seq<Field>)
    requires IsObject(f)
    ensures FilterReceipt(r, None)
    ensures FilterReceipt(r, Some(f)) <==> forall x :: x in f ==>
      && (x.key == "sender" ==> x.value == "" || x.value == r.predecessorId)
      && (x.key == "receiver" ==> x.value == "" || x.value == r.receiverId)
      && (x.key == "signer" ==> x.value == "" || (r.body.ActionBody? && x.value == r.body.signerId))
  {
    DiffersMember(f, "sender", r.predecessorId);
    DiffersMember(f, "receiver", r.receiverId);
    if Get(f, "signer").Some? {
      GetMember(f, "signer", Get(f, "signer").value);
      assert Field("signer", Get(f, "signer").value) in f;
    }
    forall x | x in f && x.key == "signer" ensures Get(f, "signer") == Some(x.value) {
      GetMember(f, "signer", x.value);
    }
  }

  /** A value the filter accepts for `key`: its own, or `fill` when it asks for none. */
  function Matching(f: seq<Field>, key: string, fill: string): string {
    if Truthy(f, key) then Get(f, key).value else fill
  }

  /** A transaction of the node with the owner fields the filter asks for. */
  function WitnessOwner(f: seq<Field>, fill: string, actions: seq<ActionValue>): RawTransaction {
    RawTransaction(
      Matching(f, "sender", fill), Matching(f, "receiver", fill), actions,
      TransactionDetails("", "", "", ""), "", 0, [], [])
  }

  /** A receipt of the node with the fields the filter asks for. */
  function WitnessRawReceipt(f: seq<Field>, fill: string, actions: seq<ActionValue>): RawReceipt {
    RawReceipt("", Matching(f, "sender", fill), Matching(f, "receiver", fill),
      RawAction(actions, Matching(f, "signer", fill), CallDetails("", "", [], [])))
  }

  const WITNESS_HEADER := Header(0, "", 0, "")

  function WitnessTransaction(f: seq<Field>): NearTransaction {
    WrapTransaction(WITNESS_HEADER, WitnessOwner(f, "x", []))
  }

  function WitnessReceipt(f: seq<Field>): ReceiptView { WrapReceipt(WitnessRawReceipt(f, "x", []), 0, 0).view }

  /**
   * A transaction entry selects exactly what `filterTransaction` accepts, for every transaction, if and only
   * if the filter has no property but `sender` and `receiver` and no empty value.
   */
  lemma {:induction false} TransactionEntryExact(f: seq<Field>)
    requires IsObject(f)
    ensures (forall tx :: EntryHolds(TxFilterToQueryEntry(f), TransactionRow(tx)) <==> FilterTransaction(tx, Some(f)))
      <==> Usual(f, OWNER_KEYS)
  {
    if Usual(f, OWNER_KEYS) {
      forall tx ensures EntryHolds(TxFilterToQueryEntry(f), TransactionRow(tx)) <==> FilterTransaction(tx, Some(f)) {
        TransactionEntryAgrees(f, tx);
      }
    } else {
      TransactionEntryMisses(f);
    }
  }

  lemma {:induction false} TransactionEntryAgrees(f: seq<Field>, tx: NearTransaction)
    requires IsObject(f) && Usual(f, OWNER_KEYS)
    ensures EntryHolds(TxFilterToQueryEntry(f), TransactionRow(tx)) <==> FilterTransaction(tx, Some(f))
  {
    CompiledConditions(f, TransactionRow(tx));
    DiffersMember(f, "sender", tx.signerId);
    DiffersMember(f, "receiver", tx.receiverId);
  }

  /** Otherwise some accepted transaction is not selected: its block would be skipped. */
  lemma {:induction false} TransactionEntryMisses(f: seq<Field>)
    requires IsObject(f) && !Usual(f, OWNER_KEYS)
    ensures FilterTransaction(WitnessTransaction(f), Some(f))
    ensures !EntryHolds(TxFilterToQueryEntry(f), TransactionRow(WitnessTransaction(f)))
  {
    var tx := WitnessTransaction(f);
    CompiledConditions(f, TransactionRow(tx));
    var x :| x in f && !(x.key in ["sender", "receiver"] && x.value != "");
    GetMember(f, x.key, x.value);
  }

  /** The same for receipts: `sender`, `receiver`, `signer`, none of them empty. */
  lemma {:induction false} ReceiptEntryExact(f: seq<Field>)
    requires IsObject(f)
    ensures (forall r :: EntryHolds(ReceiptFilterToQueryEntry(f), ReceiptRow(r)) <==> FilterReceipt(r, Some(f)))
      <==> Usual(f, RECEIPT_KEYS)
  {
    if Usual(f, RECEIPT_KEYS) {
      forall r ensures EntryHolds(ReceiptFilterToQueryEntry(f), ReceiptRow(r)) <==> FilterReceipt(r, Some(f)) {
        ReceiptEntryAgrees(f, r);
      }
    } else {
      ReceiptEntryMisses(f);
    }
  }

  lemma {:induction false} ReceiptEntryAgrees(f: seq<Field>, r: ReceiptView)
    requires IsObject(f) && Usual(f, RECEIPT_KEYS)
    ensures EntryHolds(ReceiptFilterToQueryEntry(f), ReceiptRow(r)) <==> FilterReceipt(r, Some(f))
  {
    CompiledConditions(f, ReceiptRow(r));
    DiffersMember(f, "sender", r.predecessorId);
    DiffersMember(f, "receiver", r.receiverId);
    if Get(f, "signer").Some? {
      GetMember(f, "signer", Get(f, "signer").value);
    }
    forall x | x in f && x.key == "signer" ensures Get(f, "signer") == Some(x.value) {
      GetMember(f, "signer", x.value);
    }
  }

  lemma {:induction false} ReceiptEntryMisses(f: seq<Field>)
    requires IsObject(f) && !Usual(f, RECEIPT_KEYS)
    ensures FilterReceipt(WitnessReceipt(f), Some(f))
    ensures !EntryHolds(ReceiptFilterToQueryEntry(f), ReceiptRow(WitnessReceipt(f)))
  {
    CompiledConditions(f, ReceiptRow(WitnessReceipt(f)));
    var x :| x in f && !(x.key in ["sender", "receiver", "signer"] && x.value != "");
    GetMember(f, x.key, x.value);
  }

  // Actions.

  /** The keys of an action type whose mapped property is a primitive string. */
  function TextKeys(actionType: string): seq<string> {
    match actionType
    case "FunctionCall" => ["methodName"]
    case "AddKey" => ["publicKey"]
    case "DeleteKey" => ["publicKey"]
    case "DeleteAccount" => ["beneficiaryId"]
    case _ => []
  }

  /** The filter names one of the nine types and, besides the owner's fields, only keys that can match a string. */
  predicate CanAccept(f: seq<Field>) {
    Get(f, "type").Some? && MappingFilterAction(Get(f, "type").value).Some?
    && forall x :: x in f && x.key !in ["receiver", "sender", "type"] ==> x.key in TextKeys(Get(f, "type").value)
  }

  predicate OwnerFieldsNonEmpty(f: seq<Field>) {
    forall x :: x in f && x.key in ["sender", "receiver"] ==> x.value != ""
  }

  /** A raw action of the filter's type that carries the filter's strings, and `fill` where it names none. */
  function WitnessValue(f: seq<Field>, fill: string): ActionValue
    requires Get(f, "type").Some?
  {
    match Get(f, "type").value
    case "FunctionCall" => FunctionCall(Get(f, "methodName").GetOr(fill), Plain(""))
    case "Stake" => Stake("", "")
    case "AddKey" => AddKey(Get(f, "publicKey").GetOr(fill), "")
    case "DeleteKey" => DeleteKey(Get(f, "publicKey").GetOr(fill))
    case "DeleteAccount" => DeleteAccount(Get(f, "beneficiaryId").GetOr(fill))
    case "DeployContract" => DeployContract("")
    case "Transfer" => Transfer("")
    case "Delegate" => Delegate("")
    case _ => CreateAccount
  }

  /** The action of the one-action transaction of a block that `wrapBlock` returns. */
  function WitnessAction(f: seq<Field>): ActionView
    requires Get(f, "type").Some?
  {
    TransactionActions(WrapTransaction(WITNESS_HEADER, WitnessOwner(f, "x", [WitnessValue(f, "x")])))[0]
  }

  lemma {:induction false} WitnessActionStored(f: seq<Field>)
    requires Get(f, "type").Some?
    ensures Stored(WitnessAction(f))
  {
    var raw := WitnessOwner(f, "x", [WitnessValue(f, "x")]);
    var tx := WrapTransaction(WITNESS_HEADER, raw);
    var v := BlockView(WITNESS_HEADER, [tx], TransactionActions(tx), []);
    TransactionReturned(WITNESS_HEADER, raw);
    assert Returned(v) && v.actions[0] in v.actions;
  }

  lemma {:induction false} PayloadRowKeys(v: ActionValue)
    requires v.FunctionCall? ==> v.args.Boxed?
    ensures forall key :: key in PayloadRow(v) <==> key in TextKeys(TypeOf(v))
  {
  }

  function OwnerSender(a: ActionView): string
    requires Produced(a)
  {
    if a.receipt.Some? then a.receipt.value.predecessorId else a.transaction.value.signerId
  }

  function OwnerReceiver(a: ActionView): string
    requires Produced(a)
  {
    if a.receipt.Some? then a.receipt.value.receiverId else a.transaction.value.receiverId
  }

  /** The owner checks of `filterAction`; a filter with a `signer` fails later in any case. */
  predicate OwnerPasses(f: seq<Field>, a: ActionView) {
    && (a.receipt.Some? ==> FilterReceipt(a.receipt.value, Some(f)))
    && (a.transaction.Some? ==> FilterTransaction(a.transaction.value, Some(f)))
  }

  lemma {:induction false} OwnerPassesMember(f: seq<Field>, a: ActionView)
    requires IsObject(f) && Produced(a) && !Truthy(f, "signer")
    ensures OwnerPasses(f, a) <==> forall x :: x in f && x.key in ["sender", "receiver"] ==>
      x.value == "" || x.value == if x.key == "sender" then OwnerSender(a) else OwnerReceiver(a)
  {
    DiffersMember(f, "sender", OwnerSender(a));
    DiffersMember(f, "receiver", OwnerReceiver(a));
  }

  /** The type check and the key loop of `filterAction`. */
  predicate PayloadPasses(f: seq<Field>, v: ActionValue) {
    && !Differs(f, "type", TypeOf(v))
    && forall x :: x in f && x.key !in ["receiver", "sender", "type"] ==>
         MappingFilterAction(TypeOf(v)).None?
         || Text(x.value) == MappedProperty(v, MappingFilterAction(TypeOf(v)).value, x.key)
  }

  lemma {:induction false} PayloadPassesMember(f: seq<Field>, v: ActionValue)
    requires IsObject(f) && (v.FunctionCall? ==> v.args.Boxed?)
    ensures PayloadPasses(f, v) <==> forall x :: x in f && x.key !in ["receiver", "sender"] ==>
      if x.key == "type" then x.value == "" || IsOfType(v, x.value) else Projects(v, x.key, x.value)
  {
    DiffersMember(f, "type", TypeOf(v));
    forall name ensures IsOfType(v, name) <==> name == TypeOf(v) {
    }
    assert MappingFilterAction(TypeOf(v)).Some?;
    forall x: Field | x.key != "type"
      ensures Projects(v, x.key, x.value) <==>
        Text(x.value) == MappedProperty(v, MappingFilterAction(TypeOf(v)).value, x.key)
    {
      ProjectsMapped(v, x.key, x.value);
    }
  }

  /** The node's name for the payload's type. */
  predicate IsOfType(v: ActionValue, name: string) {
    || (v.CreateAccount? && name == "CreateAccount") || (v.DeployContract? && name == "DeployContract")
    || (v.FunctionCall? && name == "FunctionCall") || (v.Transfer? && name == "Transfer")
    || (v.Stake? && name == "Stake") || (v.AddKey? && name == "AddKey") || (v.DeleteKey? && name == "DeleteKey")
    || (v.DeleteAccount? && name == "DeleteAccount") || (v.Delegate? && name == "Delegate")
  }

  /** The strings of a payload that a filter property can be compared with. */
  predicate Projects(v: ActionValue, key: string, text: string) {
    || (v.FunctionCall? && key == "methodName" && v.methodName == text)
    || (v.AddKey? && key == "publicKey" && v.publicKey == text)
    || (v.DeleteKey? && key == "publicKey" && v.publicKey == text)
    || (v.DeleteAccount? && key == "beneficiaryId" && v.beneficiaryId == text)
  }

  lemma {:induction false} ProjectsMapped(v: ActionValue, key: string, text: string)
    requires v.FunctionCall? ==> v.args.Boxed?
    ensures MappingFilterAction(TypeOf(v)).Some?
    ensures Projects(v, key, text) <==>
      Text(text) == MappedProperty(v, MappingFilterAction(TypeOf(v)).value, key)
  {
  }

  lemma {:induction false} ProjectsRow(v: ActionValue, key: string, text: string)
    requires v.FunctionCall? ==> v.args.Boxed?
    ensures Projects(v, key, text) <==> key in PayloadRow(v) && PayloadRow(v)[key] == text
  {
    ProjectsMapped(v, key, text);
  }

  /**
   * `filterAction` property by property, for the actions block assembly produces, whether or not the filter
   * names a type.
   */
  lemma {:induction false} FilterActionExact(a: ActionView, f: seq<Field>)
    requires IsObject(f) && Produced(a)
    ensures FilterAction(a, None)
    ensures FilterAction(a, Some(f)) <==> forall x :: x in f ==>
      if x.key == "sender" then x.value == "" || x.value == OwnerSender(a)
      else if x.key == "receiver" then x.value == "" || x.value == OwnerReceiver(a)
      else if x.key == "type" then x.value == "" || IsOfType(a.value, x.value)
      else Projects(a.value, x.key, x.value)
  {
    PayloadPassesMember(f, a.value);
    assert FilterAction(a, Some(f)) <==> OwnerPasses(f, a) && PayloadPasses(f, a.value);
    if Truthy(f, "signer") {
      GetMember(f, "signer", Get(f, "signer").value);
      assert Field("signer", Get(f, "signer").value) in f;
    } else {
      OwnerPassesMember(f, a);
    }
  }

  /** The same on the row of the action, for a filter that names a type. */
  lemma {:induction false} FilterActionMember(f: seq<Field>, a: ActionView)
    requires IsObject(f) && Truthy(f, "type") && Produced(a)
    ensures FilterAction(a, Some(f)) <==> forall x :: x in f ==>
      if x.key in ["sender", "receiver"] then x.value == "" || x.value == ActionRow(a)[x.key]
      else x.key in ActionRow(a) && ActionRow(a)[x.key] == x.value
  {
    FilterActionExact(a, f);
    forall x | x in f && x.key !in ["sender", "receiver"]
      ensures x.key == "type" ==> x.value != "" && (IsOfType(a.value, x.value) <==> x.value == TypeOf(a.value))
      ensures x.key != "type" ==>
        (Projects(a.value, x.key, x.value) <==> x.key in ActionRow(a) && ActionRow(a)[x.key] == x.value)
    {
      GetMember(f, x.key, x.value);
      ProjectsRow(a.value, x.key, x.value);
    }
  }

  /** `a` has the filter's type and strings, and `fill` wherever the filter asks for nothing. */
  predicate Bears(f: seq<Field>, fill: string, a: ActionView)
    requires Get(f, "type").Some?
  {
    && Produced(a) && TypeOf(a.value) == Get(f, "type").value
    && OwnerSender(a) == Matching(f, "sender", fill) && OwnerReceiver(a) == Matching(f, "receiver", fill)
    && forall key :: key in PayloadRow(a.value) ==> PayloadRow(a.value)[key] == Get(f, key).GetOr(fill)
  }

  lemma {:induction false} WitnessBears(f: seq<Field>, fill: string, a: ActionView)
    requires CanAccept(f) && a.value == ParseNearAction(WitnessValue(f, fill)) && Produced(a)
    requires OwnerSender(a) == Matching(f, "sender", fill) && OwnerReceiver(a) == Matching(f, "receiver", fill)
    ensures Bears(f, fill, a)
  {
  }

  lemma {:induction false} BearsAccepted(f: seq<Field>, fill: string, a: ActionView)
    requires IsObject(f) && Truthy(f, "type") && CanAccept(f) && Bears(f, fill, a)
    ensures FilterAction(a, Some(f))
  {
    PayloadRowKeys(a.value);
    FilterActionMember(f, a);
    forall x | x in f
      ensures if x.key in ["sender", "receiver"] then x.value == "" || x.value == ActionRow(a)[x.key]
              else x.key in ActionRow(a) && ActionRow(a)[x.key] == x.value
    {
      GetMember(f, x.key, x.value);
    }
  }

  lemma {:induction false} WitnessActionAccepted(f: seq<Field>)
    requires IsObject(f) && Truthy(f, "type") && CanAccept(f)
    ensures Bears(f, "x", WitnessAction(f)) && FilterAction(WitnessAction(f), Some(f))
  {
    WitnessBears(f, "x", WitnessAction(f));
    BearsAccepted(f, "x", WitnessAction(f));
  }

  /** `filterAction` accepts some action of a block that `wrapBlock` returns exactly when `CanAccept`. */
  lemma {:induction false} CanAcceptExact(f: seq<Field>)
    requires IsObject(f) && Truthy(f, "type")
    ensures CanAccept(f) <==> exists a :: Stored(a) && FilterAction(a, Some(f))
  {
    if CanAccept(f) {
      WitnessActionAccepted(f);
      WitnessActionStored(f);
    }
    if a :| Stored(a) && FilterAction(a, Some(f)) {
      StoredIsProduced(a);
      AcceptedCanAccept(f, a);
    }
  }

  predicate ActionSelected(f: seq<Field>, a: ActionView) { EntryHolds(ActionFilterToQueryEntry(f), ActionRow(a)) }

  lemma {:induction false} AcceptedCanAccept(f: seq<Field>, a: ActionView)
    requires IsObject(f) && Truthy(f, "type") && Produced(a) && FilterAction(a, Some(f))
    ensures CanAccept(f)
  {
    FilterActionMember(f, a);
    PayloadRowKeys(a.value);
    GetMember(f, "type", Get(f, "type").value);
  }

  /**
   * An action entry selects exactly what `filterAction` accepts, over the actions of the blocks `wrapBlock`
   * returns, if and only if `sender` and `receiver` are not empty strings, or the filter can accept no action.
   */
  lemma {:induction false} ActionEntryExact(f: seq<Field>)
    requires IsObject(f) && Truthy(f, "type")
    ensures (forall a :: Stored(a) ==> (ActionSelected(f, a) <==> FilterAction(a, Some(f)))) <==>
      OwnerFieldsNonEmpty(f) || !CanAccept(f)
  {
    if OwnerFieldsNonEmpty(f) || !CanAccept(f) {
      forall a | Stored(a) ensures ActionSelected(f, a) <==> FilterAction(a, Some(f)) {
        StoredIsProduced(a);
        ActionEntryAgrees(f, a);
      }
    } else {
      ActionEntryMisses(f);
      assert Stored(WitnessAction(f)) && !ActionSelected(f, WitnessAction(f));
    }
  }

  lemma {:induction false} ActionEntryAgrees(f: seq<Field>, a: ActionView)
    requires IsObject(f) && Truthy(f, "type") && Produced(a)
    requires OwnerFieldsNonEmpty(f) || !CanAccept(f)
    ensures ActionSelected(f, a) <==> FilterAction(a, Some(f))
  {
    CompiledConditions(f, ActionRow(a));
    FilterActionMember(f, a);
    if FilterAction(a, Some(f)) {
      AcceptedCanAccept(f, a);
    }
  }

  lemma {:induction false} ActionEntryMisses(f: seq<Field>)
    requires IsObject(f) && Truthy(f, "type") && CanAccept(f) && !OwnerFieldsNonEmpty(f)
    ensures Stored(WitnessAction(f)) && FilterAction(WitnessAction(f), Some(f))
    ensures !ActionSelected(f, WitnessAction(f))
  {
    WitnessActionAccepted(f);
    WitnessActionStored(f);
    CompiledConditions(f, ActionRow(WitnessAction(f)));
    var x :| x in f && x.key in ["sender", "receiver"] && x.value == "";
    GetMember(f, x.key, x.value);
  }
}
