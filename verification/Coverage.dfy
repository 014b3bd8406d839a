/**
 * Exactly when the fetch service visits every block a filter accepts, for any project, query and start height.
 */
module Coverage {
  import opened Seqs
  import opened NearTypes
  import opened Filters
  import opened QueryEntries
  import opened Dedup
  import opened ProjectModel
  import opened Dictionary
  import opened DictionaryLaws
  import opened Assembly
  import opened Divisibility

  /** The filter asks, under the given keys, for everything the entry asks for. */
  predicate AsksFor(f: seq<Field>, keys: seq<string>, e: Entry) {
    forall c :: c in e.conditions ==> c.field in keys && Truthy(f, c.field) && Get(f, c.field).value == c.value
  }

  /** The same for an action filter, where only the owner's fields are ignored when empty. */
  predicate AsksForAction(f: seq<Field>, e: Entry) {
    forall c :: c in e.conditions ==> Get(f, c.field) == Some(c.value) && (c.field in OWNER_KEYS ==> c.value != "")
  }

  predicate SomeAskedFor(entries: seq<Entry>, entity: string, f: seq<Field>, keys: seq<string>) {
    exists e :: e in entries && e.entity == entity && AsksFor(f, keys, e)
  }

  predicate SomeActionAskedFor(entries: seq<Entry>, f: seq<Field>) {
    exists e :: e in entries && e.entity == "actions" && AsksForAction(f, e)
  }

  /** Every height is visited. */
  predicate UnitModulo(p: Project) { 1 in Modulos(p) || -1 in Modulos(p) }

  /** The modulus of a block filter; without one it accepts every height. */
  function ModuloOf(f: HandlerFilter): int { if HasModulo(f) then f.modulo.value else 1 }

  /**
   * The query and the moduli cover the filter. An action may be found under its own row or under its owner's,
   * which is a transaction in some blocks and a receipt in others.
   */
  predicate Covered(p: Project, entries: seq<Entry>, kind: Kind, f: HandlerFilter) {
    entries == [] || UnitModulo(p) ||
    match kind
    case Block => ModuloHits(p, ModuloOf(f))
    case Transaction => SomeAskedFor(entries, "transactions", FieldsOf(f), OWNER_KEYS)
    case Receipt => SomeAskedFor(entries, "receipts", FieldsOf(f), RECEIPT_KEYS)
    case Action =>
      || !CanAccept(FieldsOf(f))
      || SomeActionAskedFor(entries, FieldsOf(f))
      || (SomeAskedFor(entries, "transactions", FieldsOf(f), OWNER_KEYS)
          && SomeAskedFor(entries, "receipts", FieldsOf(f), RECEIPT_KEYS))
  }

  // Heights that no modulus hits.

  function Product(ms: seq<int>): int {
    if ms == [] then 1 else (if ms[0] == 0 then 1 else ms[0]) * Product(ms[1..])
  }

  /** The product of the non-zero moduli is not zero, and each of them divides it. */
  lemma {:induction false} ProductLaws(ms: seq<int>)
    ensures Product(ms) != 0
    ensures forall d :: d in ms && d != 0 ==> Product(ms) % d == 0
  {
    if ms != [] {
      var rest := Product(ms[1..]);
      ProductLaws(ms[1..]);
      NonZeroProduct(if ms[0] == 0 then 1 else ms[0], rest);
      forall d | d in ms && d != 0 ensures Product(ms) % d == 0 {
        if d == ms[0] {
          MultipleRemainder(d, rest);
        } else {
          assert d in ms[1..] && rest % d == 0;
          MultipleOfMultiple(rest, if ms[0] == 0 then 1 else ms[0], d);
        }
      }
    }
  }

  function Magnitude(x: int): nat { if x < 0 then -x else x }

  /** A multiple of `m` from `start` on that exceeds `m` by a multiple of `l`. */
  function LateMultiple(m: int, l: int, start: int): int {
    var x := m * l;
    m + x * (x * (Magnitude(start) + Magnitude(m)))
  }

  lemma {:induction false} LateMultipleLaws(m: int, l: int, start: int)
    requires m != 0 && l != 0
    ensures LateMultiple(m, l, start) >= start
    ensures LateMultiple(m, l, start) % m == 0
    ensures (LateMultiple(m, l, start) - m) % l == 0
  {
    var x, reach := m * l, Magnitude(start) + Magnitude(m);
    NonZeroProduct(m, l);
    SquareGrows(x, reach);
    FactorOut(m, l, x * reach);
    MultipleRemainder(m, 1 + l * (x * reach));
    MultipleRemainder(l, m * (x * reach));
  }

  /** When no static modulus divides `m`, none divides the late multiple either. */
  lemma {:induction false} LateMultipleMissed(p: Project, m: int, start: int)
    requires m != 0 && !ModuloHits(p, m)
    ensures !ModuloHits(p, LateMultiple(m, Product(Modulos(p)), start))
  {
    var l := Product(Modulos(p));
    var h := LateMultiple(m, l, start);
    ProductLaws(Modulos(p));
    LateMultipleLaws(m, l, start);
    forall d | d in Modulos(p) && d != 0 ensures h % d != 0 {
      if h % d == 0 {
        DividesTransitive(h - m, l, d);
        SumDivides(m, h - m, d);
      }
    }
  }

  lemma {:induction false} UnitModuloHits(p: Project)
    ensures UnitModulo(p) <==> ModuloHits(p, 1)
    ensures UnitModulo(p) ==> forall h :: ModuloHits(p, h)
  {
    if m :| m in Modulos(p) && m != 0 && 1 % m == 0 {
      assert m == 1 || m == -1;
    }
    if UnitModulo(p) {
      var d := if 1 in Modulos(p) then 1 else -1;
      forall h ensures ModuloHits(p, h) {
        assert d in Modulos(p) && h % d == 0;
      }
    }
  }

  /** A header from `start` on at a multiple of `m` that no modulus hits. */
  function LateHeader(p: Project, m: int, start: int): Header {
    Header(LateMultiple(m, Product(Modulos(p)), start), "", 0, "")
  }

  lemma {:induction false} LateHeaderLaws(p: Project, m: int, start: int)
    requires m != 0 && !ModuloHits(p, m)
    ensures LateHeader(p, m, start).height >= start && LateHeader(p, m, start).height % m == 0
    ensures !ModuloHits(p, LateHeader(p, m, start).height)
  {
    ProductLaws(Modulos(p));
    LateMultipleLaws(m, Product(Modulos(p)), start);
    LateMultipleMissed(p, m, start);
  }

  // A string that no entry asks for.

  function ConditionsOf(e: Entry): seq<Condition> { e.conditions }

  function Longest(cs: seq<Condition>): nat {
    if cs == [] then 0
    else if |cs[0].value| > Longest(cs[1..]) then |cs[0].value| else Longest(cs[1..])
  }

  function Fresh(entries: seq<Entry>): string {
    seq(Longest(FlatMap(ConditionsOf, entries)) + 1, _ => 'x')
  }

  lemma {:induction false} LongestBounds(cs: seq<Condition>, c: Condition)
    requires c in cs
    ensures |c.value| <= Longest(cs)
  {
    if c != cs[0] {
      assert cs == [cs[0]] + cs[1..];
      LongestBounds(cs[1..], c);
    }
  }

  lemma {:induction false} FreshIsNew(entries: seq<Entry>)
    ensures forall e, c :: e in entries && c in e.conditions ==> c.value != Fresh(entries)
  {
    forall e, c | e in entries && c in e.conditions ensures c.value != Fresh(entries) {
      FlatMapContains(ConditionsOf, entries, e, c);
      LongestBounds(FlatMap(ConditionsOf, entries), c);
    }
  }

  /** An entry that holds on a row of the filter's strings and a fresh one asks only for what the filter asks for. */
  lemma {:induction false} RowAsksFor(f: seq<Field>, fill: string, keys: seq<string>, e: Entry, row: Row)
    requires EntryHolds(e, row) && forall c :: c in e.conditions ==> c.value != fill
    requires forall key :: key in row ==> key in keys && row[key] == Matching(f, key, fill)
    ensures AsksFor(f, keys, e)
  {
    forall c | c in e.conditions
      ensures c.field in keys && Truthy(f, c.field) && Get(f, c.field).value == c.value
    {
      assert ConditionHolds(c, row);
    }
  }

  lemma {:induction false} ActionRowAsksFor(f: seq<Field>, fill: string, e: Entry, a: ActionView)
    requires Truthy(f, "type") && Bears(f, fill, a)
    requires EntryHolds(e, ActionRow(a)) && forall c :: c in e.conditions ==> c.value != fill
    ensures AsksForAction(f, e)
  {
    forall c | c in e.conditions
      ensures Get(f, c.field) == Some(c.value) && (c.field in OWNER_KEYS ==> c.value != "")
    {
      assert ConditionHolds(c, ActionRow(a));
      if c.field !in ["type", "sender", "receiver"] {
        assert c.field in PayloadRow(a.value);
      }
    }
  }

  // What an accepted item has.

  lemma {:induction false} AcceptedTransactionHas(f: seq<Field>, e: Entry, tx: NearTransaction)
    requires FilterTransaction(tx, Some(f)) && AsksFor(f, OWNER_KEYS, e)
    ensures EntryHolds(e, TransactionRow(tx))
  {
  }

  lemma {:induction false} AcceptedReceiptHas(f: seq<Field>, e: Entry, r: ReceiptView)
    requires FilterReceipt(r, Some(f)) && AsksFor(f, RECEIPT_KEYS, e)
    ensures EntryHolds(e, ReceiptRow(r))
  {
  }

  lemma {:induction false} AcceptedActionHas(f: seq<Field>, e: Entry, a: ActionView)
    requires IsObject(f) && Truthy(f, "type") && Produced(a)
    requires FilterAction(a, Some(f)) && AsksForAction(f, e)
    ensures EntryHolds(e, ActionRow(a))
  {
    FilterActionMember(f, a);
    forall c | c in e.conditions ensures ConditionHolds(c, ActionRow(a)) {
      GetMember(f, c.field, c.value);
      assert Field(c.field, c.value) in f;
    }
  }

  lemma {:induction false} ReportedBy(entries: seq<Entry>, e: Entry, v: BlockView, row: Row)
    requires e in entries && RowOf(v, e.entity, row) && EntryHolds(e, row)
    ensures Reports(entries, v)
  {
    assert Selects(entries, e.entity, row);
  }

  /** A covered action is found under its own row or its owner's. */
  lemma {:induction false} CoveredAction(p: Project, entries: seq<Entry>, f: HandlerFilter, v: BlockView)
    requires IsObject(FieldsOf(f)) && Truthy(FieldsOf(f), "type") && Covered(p, entries, Action, f)
    requires entries != [] && !UnitModulo(p) && Returned(v) && Accepts(Action, Some(f), v)
    ensures Reports(entries, v)
  {
    var fields := FieldsOf(f);
    ReturnedOwnership(v);
    var a :| a in v.actions && FilterAction(a, Some(fields));
    AcceptedCanAccept(fields, a);
    if SomeActionAskedFor(entries, fields) {
      var e :| e in entries && e.entity == "actions" && AsksForAction(fields, e);
      AcceptedActionHas(fields, e, a);
      ReportedBy(entries, e, v, ActionRow(a));
    } else if a.receipt.Some? {
      var e :| e in entries && e.entity == "receipts" && AsksFor(fields, RECEIPT_KEYS, e);
      AcceptedReceiptHas(fields, e, a.receipt.value);
      ReportedBy(entries, e, v, ReceiptRow(a.receipt.value));
    } else {
      var e :| e in entries && e.entity == "transactions" && AsksFor(fields, OWNER_KEYS, e);
      AcceptedTransactionHas(fields, e, a.transaction.value);
      ReportedBy(entries, e, v, TransactionRow(a.transaction.value));
    }
  }

  lemma {:induction false} CoveredIsVisited(p: Project, entries: seq<Entry>, kind: Kind, f: HandlerFilter, v: BlockView)
    requires IsObject(FieldsOf(f)) && (kind == Action ==> Truthy(FieldsOf(f), "type"))
    requires Covered(p, entries, kind, f) && Returned(v) && Accepts(kind, Some(f), v)
    ensures Visited(p, entries, v)
  {
    UnitModuloHits(p);
    if entries != [] && !UnitModulo(p) {
      var fields := FieldsOf(f);
      match kind {
        case Block =>
          var d :| d in Modulos(p) && d != 0 && ModuloOf(f) % d == 0;
          DividesTransitive(v.header.height, ModuloOf(f), d);
        case Transaction =>
          var tx :| tx in v.transactions && FilterTransaction(tx, Some(fields));
          var e :| e in entries && e.entity == "transactions" && AsksFor(fields, OWNER_KEYS, e);
          AcceptedTransactionHas(fields, e, tx);
          ReportedBy(entries, e, v, TransactionRow(tx));
        case Receipt =>
          var r :| r in v.receipts && FilterReceipt(r, Some(fields));
          var e :| e in entries && e.entity == "receipts" && AsksFor(fields, RECEIPT_KEYS, e);
          AcceptedReceiptHas(fields, e, r);
          ReportedBy(entries, e, v, ReceiptRow(r));
        case Action => CoveredAction(p, entries, f, v);
      }
    }
  }

  // Blocks that are missed otherwise.

  function TransactionBlock(header: Header, raw: RawTransaction): BlockView {
    var tx := WrapTransaction(header, raw);
    BlockView(header, [tx], TransactionActions(tx), [])
  }

  function ReceiptBlock(header: Header, raw: RawReceipt): BlockView {
    var w := WrapReceipt(raw, 0, 0);
    BlockView(header, [], ReceiptActions(w), [w.view])
  }

  /** The block holds one item the filter accepts, with fresh strings wherever the filter asks for nothing. */
  function TransactionWitness(p: Project, entries: seq<Entry>, f: seq<Field>, start: int, actions: seq<ActionValue>)
    : BlockView
  {
    TransactionBlock(LateHeader(p, 1, start), WitnessOwner(f, Fresh(entries), actions))
  }

  function ReceiptWitness(p: Project, entries: seq<Entry>, f: seq<Field>, start: int, actions: seq<ActionValue>)
    : BlockView
  {
    ReceiptBlock(LateHeader(p, 1, start), WitnessRawReceipt(f, Fresh(entries), actions))
  }

  /** If the query finds the owner of such a block, it asks only for what the filter asks for. */
  lemma {:induction false} OwnerNotFound(
    p: Project, entries: seq<Entry>, f: seq<Field>, start: int, actions: seq<ActionValue>)
    ensures var tx := TransactionWitness(p, entries, f, start, actions).transactions[0];
      Selects(entries, "transactions", TransactionRow(tx)) ==> SomeAskedFor(entries, "transactions", f, OWNER_KEYS)
    ensures var r := ReceiptWitness(p, entries, f, start, actions).receipts[0];
      Selects(entries, "receipts", ReceiptRow(r)) ==> SomeAskedFor(entries, "receipts", f, RECEIPT_KEYS)
  {
    var tx := TransactionWitness(p, entries, f, start, actions).transactions[0];
    var r := ReceiptWitness(p, entries, f, start, actions).receipts[0];
    FreshIsNew(entries);
    if e :| e in entries && e.entity == "transactions" && EntryHolds(e, TransactionRow(tx)) {
      RowAsksFor(f, Fresh(entries), OWNER_KEYS, e, TransactionRow(tx));
    }
    if e :| e in entries && e.entity == "receipts" && EntryHolds(e, ReceiptRow(r)) {
      RowAsksFor(f, Fresh(entries), RECEIPT_KEYS, e, ReceiptRow(r));
    }
  }

  lemma {:induction false} ActionNotFound(entries: seq<Entry>, f: seq<Field>, a: ActionView)
    requires Truthy(f, "type") && Bears(f, Fresh(entries), a)
    ensures Selects(entries, "actions", ActionRow(a)) ==> SomeActionAskedFor(entries, f)
  {
    FreshIsNew(entries);
    if e :| e in entries && e.entity == "actions" && EntryHolds(e, ActionRow(a)) {
      ActionRowAsksFor(f, Fresh(entries), e, a);
    }
  }

  /** The block is one `wrapBlock` returns, from `start` on, and no modulus hits it. */
  lemma {:induction false} WitnessReturned(
    p: Project, entries: seq<Entry>, f: seq<Field>, start: int, actions: seq<ActionValue>)
    requires !UnitModulo(p)
    ensures Returned(TransactionWitness(p, entries, f, start, actions))
    ensures Returned(ReceiptWitness(p, entries, f, start, actions))
    ensures LateHeader(p, 1, start).height >= start && !ModuloHits(p, LateHeader(p, 1, start).height)
  {
    UnitModuloHits(p);
    LateHeaderLaws(p, 1, start);
    TransactionReturned(LateHeader(p, 1, start), WitnessOwner(f, Fresh(entries), actions));
    ReceiptReturned(LateHeader(p, 1, start), WitnessRawReceipt(f, Fresh(entries), actions), 0);
  }

  lemma {:induction false} NotReported(entries: seq<Entry>, v: BlockView)
    requires forall tx :: tx in v.transactions ==> !Selects(entries, "transactions", TransactionRow(tx))
    requires forall r :: r in v.receipts ==> !Selects(entries, "receipts", ReceiptRow(r))
    requires forall a :: a in v.actions ==> !Selects(entries, "actions", ActionRow(a))
    ensures !Reports(entries, v)
  {
  }

  lemma {:induction false} TransactionBlockMissed(
    p: Project, entries: seq<Entry>, f: seq<Field>, start: int, actions: seq<ActionValue>)
    requires entries != [] && !UnitModulo(p) && !SomeAskedFor(entries, "transactions", f, OWNER_KEYS)
    requires forall a :: a in TransactionWitness(p, entries, f, start, actions).actions ==>
      !Selects(entries, "actions", ActionRow(a))
    ensures !Visited(p, entries, TransactionWitness(p, entries, f, start, actions))
  {
    WitnessReturned(p, entries, f, start, actions);
    OwnerNotFound(p, entries, f, start, actions);
    NotReported(entries, TransactionWitness(p, entries, f, start, actions));
  }

  lemma {:induction false} ReceiptBlockMissed(
    p: Project, entries: seq<Entry>, f: seq<Field>, start: int, actions: seq<ActionValue>)
    requires entries != [] && !UnitModulo(p) && !SomeAskedFor(entries, "receipts", f, RECEIPT_KEYS)
    requires forall a :: a in ReceiptWitness(p, entries, f, start, actions).actions ==>
      !Selects(entries, "actions", ActionRow(a))
    ensures !Visited(p, entries, ReceiptWitness(p, entries, f, start, actions))
  {
    WitnessReturned(p, entries, f, start, actions);
    OwnerNotFound(p, entries, f, start, actions);
    NotReported(entries, ReceiptWitness(p, entries, f, start, actions));
  }

  lemma {:induction false} MissedTransaction(p: Project, entries: seq<Entry>, f: HandlerFilter, start: int)
    requires IsObject(FieldsOf(f)) && !Covered(p, entries, Transaction, f)
    ensures Missed(p, entries, Transaction, f, start, TransactionWitness(p, entries, FieldsOf(f), start, []))
  {
    var v := TransactionWitness(p, entries, FieldsOf(f), start, []);
    WitnessReturned(p, entries, FieldsOf(f), start, []);
    TransactionBlockMissed(p, entries, FieldsOf(f), start, []);
    AcceptsTransaction(f, v, v.transactions[0]);
  }

  lemma {:induction false} MissedReceipt(p: Project, entries: seq<Entry>, f: HandlerFilter, start: int)
    requires IsObject(FieldsOf(f)) && !Covered(p, entries, Receipt, f)
    ensures Missed(p, entries, Receipt, f, start, ReceiptWitness(p, entries, FieldsOf(f), start, []))
  {
    var v := ReceiptWitness(p, entries, FieldsOf(f), start, []);
    WitnessReturned(p, entries, FieldsOf(f), start, []);
    ReceiptBlockMissed(p, entries, FieldsOf(f), start, []);
    AcceptsReceipt(f, v, v.receipts[0]);
  }

  lemma {:induction false} MissedTransactionAction(p: Project, entries: seq<Entry>, f: HandlerFilter, start: int)
    returns (v: BlockView)
    requires IsObject(FieldsOf(f)) && Truthy(FieldsOf(f), "type") && !Covered(p, entries, Action, f)
    requires !SomeAskedFor(entries, "transactions", FieldsOf(f), OWNER_KEYS)
    ensures Missed(p, entries, Action, f, start, v)
  {
    var fields := FieldsOf(f);
    var actions := [WitnessValue(fields, Fresh(entries))];
    v := TransactionWitness(p, entries, fields, start, actions);
    var a := v.actions[0];
    assert v.actions == [a];
    WitnessActionMissed(entries, fields, a);
    WitnessReturned(p, entries, fields, start, actions);
    TransactionBlockMissed(p, entries, fields, start, actions);
    AcceptsAction(f, v, a);
  }

  lemma {:induction false} MissedReceiptAction(p: Project, entries: seq<Entry>, f: HandlerFilter, start: int)
    returns (v: BlockView)
    requires IsObject(FieldsOf(f)) && Truthy(FieldsOf(f), "type") && !Covered(p, entries, Action, f)
    requires !SomeAskedFor(entries, "receipts", FieldsOf(f), RECEIPT_KEYS)
    ensures Missed(p, entries, Action, f, start, v)
  {
    var fields := FieldsOf(f);
    var actions := [WitnessValue(fields, Fresh(entries))];
    v := ReceiptWitness(p, entries, fields, start, actions);
    var a := v.actions[0];
    assert v.actions == [a];
    WitnessActionMissed(entries, fields, a);
    WitnessReturned(p, entries, fields, start, actions);
    ReceiptBlockMissed(p, entries, fields, start, actions);
    AcceptsAction(f, v, a);
  }

  lemma {:induction false} AcceptsTransaction(f: HandlerFilter, v: BlockView, tx: NearTransaction)
    requires tx in v.transactions && FilterTransaction(tx, Some(FieldsOf(f)))
    ensures Accepts(Transaction, Some(f), v)
  {
  }

  lemma {:induction false} AcceptsReceipt(f: HandlerFilter, v: BlockView, r: ReceiptView)
    requires r in v.receipts && FilterReceipt(r, Some(FieldsOf(f)))
    ensures Accepts(Receipt, Some(f), v)
  {
  }

  lemma {:induction false} AcceptsAction(f: HandlerFilter, v: BlockView, a: ActionView)
    requires a in v.actions && FilterAction(a, Some(FieldsOf(f)))
    ensures Accepts(Action, Some(f), v)
  {
  }

  lemma {:induction false} WitnessActionMissed(entries: seq<Entry>, f: seq<Field>, a: ActionView)
    requires IsObject(f) && Truthy(f, "type") && CanAccept(f) && !SomeActionAskedFor(entries, f)
    requires a.value == ParseNearAction(WitnessValue(f, Fresh(entries))) && Produced(a)
    requires OwnerSender(a) == Matching(f, "sender", Fresh(entries))
    requires OwnerReceiver(a) == Matching(f, "receiver", Fresh(entries))
    ensures FilterAction(a, Some(f)) && !Selects(entries, "actions", ActionRow(a))
  {
    WitnessBears(f, Fresh(entries), a);
    BearsAccepted(f, Fresh(entries), a);
    ActionNotFound(entries, f, a);
  }

  lemma {:induction false} MissedHeight(p: Project, entries: seq<Entry>, f: HandlerFilter, start: int)
    requires !Covered(p, entries, Block, f)
    ensures Missed(p, entries, Block, f, start, BlockView(LateHeader(p, ModuloOf(f), start), [], [], []))
  {
    LateHeaderLaws(p, ModuloOf(f), start);
    EmptyReturned(LateHeader(p, ModuloOf(f), start));
  }

  /** A block from `start` on that the filter accepts and the fetch service skips. */
  ghost predicate Missed(p: Project, entries: seq<Entry>, kind: Kind, f: HandlerFilter, start: int, v: BlockView) {
    && Returned(v) && v.header.height >= start
    && Accepts(kind, Some(f), v) && !Visited(p, entries, v)
  }

  /**
   * For any project, any query and any start height: every block from there on that the filter accepts is
   * visited if and only if the filter is covered.
   */
  lemma {:induction false} CoverageExact(p: Project, entries: seq<Entry>, kind: Kind, f: HandlerFilter, start: int)
    requires IsObject(FieldsOf(f)) && (kind == Action ==> Truthy(FieldsOf(f), "type"))
    ensures Covered(p, entries, kind, f) <==> forall v :: !Missed(p, entries, kind, f, start, v)
  {
    if Covered(p, entries, kind, f) {
      forall v ensures !Missed(p, entries, kind, f, start, v) {
        if Missed(p, entries, kind, f, start, v) {
          CoveredIsVisited(p, entries, kind, f, v);
        }
      }
    } else {
      match kind {
        case Block => MissedHeight(p, entries, f, start);
        case Transaction => MissedTransaction(p, entries, f, start);
        case Receipt => MissedReceipt(p, entries, f, start);
        case Action =>
          if SomeAskedFor(entries, "transactions", FieldsOf(f), OWNER_KEYS) {
            var v := MissedReceiptAction(p, entries, f, start);
          } else {
            var v := MissedTransactionAction(p, entries, f, start);
          }
      }
    }
  }

  // Faithful filters.

  /** A filter's own entry asks for what the filter asks for exactly when the filter is faithful. */
  lemma {:induction false} OwnEntryAskedFor(f: seq<Field>)
    requires IsObject(f)
    ensures AsksFor(f, OWNER_KEYS, TxFilterToQueryEntry(f)) <==> Usual(f, OWNER_KEYS)
    ensures AsksFor(f, RECEIPT_KEYS, ReceiptFilterToQueryEntry(f)) <==> Usual(f, RECEIPT_KEYS)
    ensures AsksForAction(f, ActionFilterToQueryEntry(f)) <==> OwnerFieldsNonEmpty(f)
  {
    forall x | x in f ensures ToCondition(x) in Map(ToCondition, f) && Get(f, x.key) == Some(x.value) {
      var i :| 0 <= i < |f| && f[i] == x;
      assert Map(ToCondition, f)[i] == ToCondition(x);
      GetMember(f, x.key, x.value);
    }
    forall c | c in Map(ToCondition, f) ensures Field(c.field, c.value) in f {
    }
  }

  /** Deduplication keeps what the entries of a list ask for. */
  lemma {:induction false} KeptAsksFor(s: seq<Entry>, e: Entry) returns (kept: Entry)
    requires e in s
    ensures kept in UniqBy(s) && kept.entity == e.entity
    ensures forall c :: c in kept.conditions <==> c in e.conditions
  {
    UniqKeys(s, Key(e));
    kept :| kept in UniqBy(s) && Key(kept) == Key(e);
    KeyMeaning(kept, e, map[]);
    forall c ensures c in kept.conditions <==> c in e.conditions {
      SameMultisetMember(kept.conditions, e.conditions, c);
    }
  }

  /** Being faithful is enough: the compiled query covers every faithful filter of a considered handler. */
  lemma {:induction false} FaithfulIsCovered(
    p: Project, startBlock: int, entries: seq<Entry>, ds: DsKind, h: Handler, f: HandlerFilter)
    requires Compile(p, startBlock) == Ok(entries)
    requires Handle(ds, h) in AllVisits(p, startBlock) && !HasOwnQuery(ds, h) && f in FilterList(ds, h)
    requires BaseKind(ds, h).Some? && BaseKind(ds, h).value != Block && Faithful(BaseKind(ds, h).value, f)
    ensures Covered(p, entries, BaseKind(ds, h).value, f)
  {
    var kind := BaseKind(ds, h).value;
    if entries != [] {
      var all := Scan(AllVisits(p, startBlock)).entries;
      var e := EntriesFor(Some(kind), f)[0];
      ScanMember(AllVisits(p, startBlock), Handle(ds, h));
      FlatMapContains(EntriesOf(Some(kind)), FilterList(ds, h), f, e);
      OwnEntryAskedFor(FieldsOf(f));
      var kept := KeptAsksFor(all, e);
      match kind {
        case Transaction => assert AsksFor(FieldsOf(f), OWNER_KEYS, kept);
        case Receipt => assert AsksFor(FieldsOf(f), RECEIPT_KEYS, kept);
        case Action => assert OwnerFieldsNonEmpty(FieldsOf(f)) ==> AsksForAction(FieldsOf(f), kept);
      }
    }
  }

  /** A project with one runtime handler. */
  function Solo(h: Handler): Project { Project([DataSource(Runtime, Some(0), [h])], []) }

  lemma {:induction false} UniqBySingle(e: Entry)
    ensures UniqBy([e]) == [e]
  {
    assert [e][..0] == [];
    assert UniqBy([e][..0]) == [];
  }

  lemma {:induction false} CompiledSingle(p: Project, startBlock: int, entries: seq<Entry>)
    requires Scan(AllVisits(p, startBlock)) == Contributes(entries) && |entries| == 1
    ensures Compile(p, startBlock) == Ok(entries)
  {
    UniqBySingle(entries[0]);
    assert entries == [entries[0]];
  }

  lemma {:induction false} SoloVisits(h: Handler)
    ensures AllVisits(Solo(h), 0) == [Open(Runtime), Handle(Runtime, h)]
  {
    var ds := DataSource(Runtime, Some(0), [h]);
    assert AllSources(Solo(h)) == [ds];
    FilterAll(StartedBy(0), [ds]);
    assert SortByStart([ds]) == InsertByStart(ds, SortByStart([ds][1..])) == [ds];
    FlatMapSingle(VisitsOf, ds);
    assert VisitsOf(ds) == [Open(Runtime), Handle(Runtime, h)];
  }

  lemma {:induction false} SoloOutcome(h: Handler)
    requires h.kind.Base? && h.filter.Some? && Usable(Some(h.kind.kind), h.filter.value)
    ensures OutcomeOf(Handle(Runtime, h)) == Contributes(EntriesFor(Some(h.kind.kind), h.filter.value))
  {
    PresentSingle(h.filter);
    FlatMapSingle(EntriesOf(Some(h.kind.kind)), h.filter.value);
  }

  lemma {:induction false} ScanOpened(v: Visit)
    ensures Scan([Open(Runtime), v]) == OutcomeOf(v)
  {
    ScanConcat([Open(Runtime)], [v]);
    ScanConcat([v], []);
    assert [Open(Runtime)] + [v] == [Open(Runtime), v];
    assert [Open(Runtime)][1..] == [] && [v][1..] == [];
    var o := OutcomeOf(v);
    if o.Contributes? {
      assert [] + o.entries == o.entries && o.entries + [] == o.entries;
    }
  }

  lemma {:induction false} SoloCompiles(h: Handler)
    requires h.kind.Base? && h.kind.kind != Block && h.filter.Some? && Usable(Some(h.kind.kind), h.filter.value)
    ensures Compile(Solo(h), 0) == Ok(EntriesFor(Some(h.kind.kind), h.filter.value))
    ensures |EntriesFor(Some(h.kind.kind), h.filter.value)| == 1
  {
    SoloVisits(h);
    SoloOutcome(h);
    ScanOpened(Handle(Runtime, h));
    CompiledSingle(Solo(h), 0, EntriesFor(Some(h.kind.kind), h.filter.value));
  }

  lemma {:induction false} NoModulos(h: Handler)
    requires h.kind.Base? && h.kind.kind != Block
    ensures Modulos(Solo(h)) == []
  {
    var ds := DataSource(Runtime, Some(0), [h]);
    FlatMapSingle(DsModulos, ds);
    FlatMapSingle(HandlerModulos, h);
  }

  /** For a single usable handler, whose entry no other entry can stand in for, being faithful is also necessary. */
  lemma {:induction false} FaithfulExact(h: Handler, entries: seq<Entry>, start: int)
    requires h.kind.Base? && h.kind.kind != Block && h.filter.Some? && Usable(Some(h.kind.kind), h.filter.value)
    requires IsObject(FieldsOf(h.filter.value)) && Compile(Solo(h), 0) == Ok(entries)
    ensures (forall v :: !Missed(Solo(h), entries, h.kind.kind, h.filter.value, start, v))
      <==> Faithful(h.kind.kind, h.filter.value)
  {
    var kind, f := h.kind.kind, h.filter.value;
    CoverageExact(Solo(h), entries, kind, f, start);
    SoloCompiles(h);
    NoModulos(h);
    SoloCovered(Solo(h), kind, f);
  }

  lemma {:induction false} SoloCovered(p: Project, kind: Kind, f: HandlerFilter)
    requires kind != Block && IsObject(FieldsOf(f)) && Modulos(p) == []
    ensures Covered(p, EntriesFor(Some(kind), f), kind, f) <==> Faithful(kind, f)
  {
    var fields := FieldsOf(f);
    OwnEntryAskedFor(fields);
    match kind {
      case Transaction => SingleAskedFor(TxFilterToQueryEntry(fields), fields, OWNER_KEYS);
      case Receipt => SingleAskedFor(ReceiptFilterToQueryEntry(fields), fields, RECEIPT_KEYS);
      case Action =>
        SingleAskedFor(ActionFilterToQueryEntry(fields), fields, OWNER_KEYS);
        SingleAskedFor(ActionFilterToQueryEntry(fields), fields, RECEIPT_KEYS);
    }
  }

  lemma {:induction false} SingleAskedFor(e: Entry, f: seq<Field>, keys: seq<string>)
    ensures forall entity :: SomeAskedFor([e], entity, f, keys) <==> e.entity == entity && AsksFor(f, keys, e)
    ensures SomeActionAskedFor([e], f) <==> e.entity == "actions" && AsksForAction(f, e)
  {
    assert e in [e];
  }

  // Block handlers.

  /** A block handler accepts every multiple of its modulus, and without one every height. */
  lemma {:induction false} BlockAccepted(f: HandlerFilter, v: BlockView)
    requires f.OnBlock?
    ensures Accepts(Block, Some(f), v) <==>
      f.modulo.None? || f.modulo.value == 0 || exists k :: Times(f.modulo.value, k) == v.header.height
    ensures Accepts(Block, None, v)
  {
    FilterBlockModuloExact(v.header.height, f.modulo);
  }

  /**
   * For a block handler with modulus `m`, whatever data source it belongs to: from height `start` on (where its
   * source starts, or the query was compiled) no accepted block is skipped if and only if the query is empty or
   * some modulus of a static, non-custom data source divides `m`.
   */
  lemma {:induction false} BlockHandlerExact(p: Project, entries: seq<Entry>, m: int, start: int)
    requires m != 0
    ensures (forall v :: !Missed(p, entries, Block, OnBlock(Some(m), ""), start, v))
      <==> entries == [] || ModuloHits(p, m)
  {
    CoverageExact(p, entries, Block, OnBlock(Some(m), ""), start);
    UnitModuloHits(p);
  }

  const ALICE_FILTER := OnFields([Field("sender", "alice.near")])
  const TRANSACTION_SOURCE :=
    DataSource(Runtime, Some(0), [Handler(Base(Transaction), Some(ALICE_FILTER), None)])
  const EVEN_BLOCK_FILTER := OnBlock(Some(2), "")
  const EVEN_BLOCK_SOURCE := DataSource(Runtime, Some(0), [Handler(Base(Block), Some(EVEN_BLOCK_FILTER), None)])

  /** A dynamic block handler next to a static transaction handler. */
  const DYNAMIC_BLOCK_PROJECT := Project([TRANSACTION_SOURCE], [EVEN_BLOCK_SOURCE])

  lemma {:induction false} DynamicBlockVisits()
    ensures AllVisits(DYNAMIC_BLOCK_PROJECT, 0) ==
      [Open(Runtime), Handle(Runtime, TRANSACTION_SOURCE.handlers[0]),
       Open(Runtime), Handle(Runtime, EVEN_BLOCK_SOURCE.handlers[0])]
  {
    var all := AllSources(DYNAMIC_BLOCK_PROJECT);
    assert all == [TRANSACTION_SOURCE] + [EVEN_BLOCK_SOURCE] && all[1..] == [EVEN_BLOCK_SOURCE];
    FilterAll(StartedBy(0), all);
    assert SortByStart(all[1..]) == InsertByStart(EVEN_BLOCK_SOURCE, SortByStart(all[1..][1..])) == [EVEN_BLOCK_SOURCE];
    assert FilteredDs(DYNAMIC_BLOCK_PROJECT, 0) == all;
    FlatMapConcat(VisitsOf, [TRANSACTION_SOURCE], [EVEN_BLOCK_SOURCE]);
    FlatMapSingle(VisitsOf, TRANSACTION_SOURCE);
    FlatMapSingle(VisitsOf, EVEN_BLOCK_SOURCE);
  }

  lemma {:induction false} DynamicBlockScan(e: Entry)
    requires e == TxFilterToQueryEntry(ALICE_FILTER.fields)
    ensures Scan([Open(Runtime), Handle(Runtime, TRANSACTION_SOURCE.handlers[0]),
                  Open(Runtime), Handle(Runtime, EVEN_BLOCK_SOURCE.handlers[0])]) == Contributes([e])
  {
    var h, d := Handle(Runtime, TRANSACTION_SOURCE.handlers[0]), Handle(Runtime, EVEN_BLOCK_SOURCE.handlers[0]);
    assert Get(ALICE_FILTER.fields, "sender") == Some("alice.near");
    SoloOutcome(h.handler);
    SoloOutcome(d.handler);
    Decided([], [], Open(Runtime), []);
    Decided([Open(Runtime)], [], h, []);
    Decided([Open(Runtime), h], [e], Open(Runtime), []);
    Decided([Open(Runtime), h, Open(Runtime)], [e], d, []);
    assert [Open(Runtime), h] == [Open(Runtime)] + [h];
    assert [Open(Runtime), h, Open(Runtime)] == [Open(Runtime), h] + [Open(Runtime)];
    assert [Open(Runtime), h, Open(Runtime), d] == [Open(Runtime), h, Open(Runtime)] + [d];
  }

  lemma {:induction false} DynamicBlockCompiles()
    ensures Compile(DYNAMIC_BLOCK_PROJECT, 0) == Ok([TxFilterToQueryEntry(ALICE_FILTER.fields)])
  {
    DynamicBlockVisits();
    DynamicBlockScan(TxFilterToQueryEntry(ALICE_FILTER.fields));
    CompiledSingle(DYNAMIC_BLOCK_PROJECT, 0, [TxFilterToQueryEntry(ALICE_FILTER.fields)]);
  }

  lemma {:induction false} DynamicBlockModulos()
    ensures Modulos(DYNAMIC_BLOCK_PROJECT) == []
  {
    FlatMapSingle(DsModulos, TRANSACTION_SOURCE);
    FlatMapSingle(HandlerModulos, TRANSACTION_SOURCE.handlers[0]);
  }

  lemma {:induction false} DynamicSourceRuns(height: int)
    requires height >= 0
    ensures EVEN_BLOCK_SOURCE in GetAllDataSources(DYNAMIC_BLOCK_PROJECT, height)
  {
    assert EVEN_BLOCK_SOURCE in DYNAMIC_BLOCK_PROJECT.dynamicDataSources;
  }

  /** The query is not empty, yet a block the dynamic handler accepts is neither reported nor hit by a modulus. */
  lemma {:induction false} DynamicBlockHandlerMissed(v: BlockView)
    requires v == BlockView(Header(2, "", 0, ""), [], [], [])
    ensures Compile(DYNAMIC_BLOCK_PROJECT, 0) == Ok([TxFilterToQueryEntry(ALICE_FILTER.fields)])
    ensures EVEN_BLOCK_SOURCE in GetAllDataSources(DYNAMIC_BLOCK_PROJECT, v.header.height)
    ensures Missed(DYNAMIC_BLOCK_PROJECT, [TxFilterToQueryEntry(ALICE_FILTER.fields)], Block, EVEN_BLOCK_FILTER, 0, v)
  {
    DynamicBlockCompiles();
    DynamicBlockModulos();
    DynamicSourceRuns(2);
    EmptyBlockMissed(DYNAMIC_BLOCK_PROJECT, [TxFilterToQueryEntry(ALICE_FILTER.fields)], EVEN_BLOCK_FILTER, v.header);
  }

  /** Without moduli, a block without items is skipped unless the query is empty. */
  lemma {:induction false} EmptyBlockMissed(p: Project, entries: seq<Entry>, f: HandlerFilter, header: Header)
    requires Modulos(p) == [] && entries != [] && header.height >= 0
    requires Accepts(Block, Some(f), BlockView(header, [], [], []))
    ensures Missed(p, entries, Block, f, 0, BlockView(header, [], [], []))
  {
    EmptyReturned(header);
    NotReported(entries, BlockView(header, [], [], []));
  }
}
