/** The run-time filters of `utils/near.ts`. A filter object is the list of its own string properties. */
module Filters {
  import opened Seqs
  import opened NearTypes
  import opened Divisibility

  datatype Field = Field(key: string, value: string)

  /** A JavaScript object has each property once; the order is that of `Object.entries`. */
  predicate IsObject(f: seq<Field>) {
    forall i, j :: 0 <= i < j < |f| ==> f[i].key != f[j].key
  }

  /** `f[key]`, None when the property is missing. */
  function Get(f: seq<Field>, key: string): Option<string> {
    if f == [] then None
    else if f[0].key == key then Some(f[0].value)
    else Get(f[1..], key)
  }

  /** `f[key]` is a non-empty string. */
  predicate Truthy(f: seq<Field>, key: string) {
    Get(f, key).Some? && Get(f, key).value != ""
  }

  /** `f[key] && f[key] !== actual` */
  predicate Differs(f: seq<Field>, key: string, actual: string) {
    Truthy(f, key) && Get(f, key).value != actual
  }

  lemma {:induction false} GetMember(f: seq<Field>, key: string, value: string)
    requires IsObject(f)
    ensures Get(f, key) == Some(value) <==> Field(key, value) in f
  {
    if f != [] {
      assert f == [f[0]] + f[1..];
      if f[0].key == key {
        forall i | 0 < i < |f| ensures f[i].key != key {
        }
      } else {
        GetMember(f[1..], key, value);
      }
    }
  }

  predicate FilterTransaction(transaction: NearTransaction, filter: Option<seq<Field>>) {
    if filter.None? then true
    else if Differs(filter.value, "sender", transaction.signerId) then false
    else if Differs(filter.value, "receiver", transaction.receiverId) then false
    else true
  }

  predicate FilterReceipt(receipt: ReceiptView, filter: Option<seq<Field>>) {
    if filter.None? then true
    else if Differs(filter.value, "sender", receipt.predecessorId) then false
    else if Differs(filter.value, "receiver", receipt.receiverId) then false
    else if Truthy(filter.value, "signer")
      && (!receipt.body.ActionBody? || receipt.body.signerId != Get(filter.value, "signer").value) then false
    else true
  }

  /** What a property lookup yields: `===` with a string holds only for the same primitive string. */
  datatype JsValue = Undefined | Text(text: string) | Object

  /** mappingFilterAction: where each filter key of an action type is looked up. */
  function MappingFilterAction(actionType: string): Option<map<string, string>> {
    match actionType
    case "FunctionCall" => Some(map["methodName" := "action.method_name", "args" := "action.args"])
    case "Stake" => Some(map["publicKey" := "action.publicKey"])
    case "AddKey" => Some(map["publicKey" := "action.public_key", "accessKey" := "action.access_key"])
    case "DeleteKey" => Some(map["publicKey" := "action.public_key"])
    case "DeleteAccount" => Some(map["beneficiaryId" := "action.beneficiary_id"])
    case "CreateAccount" => Some(map[])
    case "DeployContract" => Some(map[])
    case "Transfer" => Some(map[])
    case "Delegate" => Some(map["publicKey" := "action.publicKey"])
    case _ => None
  }

  /** `get(action, path)` on the payload; boxed arguments and access keys are objects. */
  function Property(v: ActionValue, path: string): JsValue {
    match v
    case FunctionCall(methodName, args) =>
      if path == "action.method_name" then Text(methodName)
      else if path == "action.args" then (if args.Boxed? then Object else Text(args.text))
      else Undefined
    case Stake(_, publicKey) => if path == "action.public_key" then Text(publicKey) else Undefined
    case AddKey(publicKey, _) =>
      if path == "action.public_key" then Text(publicKey)
      else if path == "action.access_key" then Object
      else Undefined
    case DeleteKey(publicKey) => if path == "action.public_key" then Text(publicKey) else Undefined
    case DeleteAccount(beneficiaryId) => if path == "action.beneficiary_id" then Text(beneficiaryId) else Undefined
    case Delegate(publicKey) => if path == "action.public_key" then Text(publicKey) else Undefined
    case DeployContract(code) => if path == "action.code" then Object else Undefined
    case Transfer(deposit) => if path == "action.deposit" then Text(deposit) else Undefined
    case CreateAccount => Undefined
  }

  /** `get(action, mapping[key])`; an unmapped key looks up `undefined`. */
  function MappedProperty(v: ActionValue, mapping: map<string, string>, key: string): JsValue {
    if key in mapping then Property(v, mapping[key]) else Undefined
  }

  predicate FilterAction(action: ActionView, filter: Option<seq<Field>>) {
    if filter.None? then true
    else if action.receipt.Some? && !FilterReceipt(action.receipt.value, filter) then false
    else if action.transaction.Some? && !FilterTransaction(action.transaction.value, filter) then false
    else if Differs(filter.value, "type", TypeOf(action.value)) then false
    else
      var mapping := MappingFilterAction(TypeOf(action.value));
      forall field :: field in filter.value && field.key !in ["receiver", "sender", "type"] ==>
        mapping.None? || Text(field.value) == MappedProperty(action.value, mapping.value, field.key)
  }

  predicate FilterBlockModulo(height: int, modulo: Option<int>) {
    if modulo.None? || modulo.value == 0 then true else height % modulo.value == 0
  }

  /** Without a modulus, or with 0, every height passes; otherwise the multiples of the modulus do. */
  ghost predicate PassesModulo(height: int, modulo: Option<int>) {
    modulo.None? || modulo.value == 0 || IsMultiple(height, modulo.value)
  }

  lemma {:induction false} FilterBlockModuloExact(height: int, modulo: Option<int>)
    ensures FilterBlockModulo(height, modulo) <==> PassesModulo(height, modulo)
  {
    if modulo.Some? && modulo.value != 0 {
      RemainderExact(height, modulo.value);
    }
  }
}
