/**
 * The dictionary compiler stated on the manifest: what each handler does to the compilation, in which order
 * handlers are looked at, and exactly when the compiler falls back.
 */
module ManifestLaws {
  import opened Seqs
  import opened NearTypes
  import opened Filters
  import opened QueryEntries
  import opened Dedup
  import opened ProjectModel
  import opened Dictionary
  import opened DictionaryLaws

  /** The handler's own kind, or that of its processor. */
  predicate KindIs(ds: DsKind, h: Handler, k: Kind) {
    || (ds.Runtime? && h.kind == Base(k))
    || (ds.Custom? && h.kind.Named? && ds.plugin.Some? && h.kind in ds.plugin.value
        && ds.plugin.value[h.kind].baseHandlerKind == Some(k))
  }

  /** `f` is one of the filters that decide for the handler. */
  predicate IsFilterOf(ds: DsKind, h: Handler, f: HandlerFilter) {
    if ds.Custom?
    then ds.plugin.Some? && h.kind in ds.plugin.value && Some(f) in ds.plugin.value[h.kind].baseFilter
    else h.filter == Some(f)
  }

  /** The custom source has no processor for the handler, or one without a base kind for a named handler. */
  predicate LookupFails(ds: DsKind, h: Handler) {
    ds.Custom? &&
    (ds.plugin.None? || h.kind !in ds.plugin.value
     || (h.kind.Named? && ds.plugin.value[h.kind].baseHandlerKind.None?))
  }

  predicate AnswersItself(ds: DsKind, h: Handler) { ds.Custom? && h.query.Some? }

  /** The filter asks for a non-empty value under one of the keys. */
  predicate NamesOneOf(f: HandlerFilter, keys: seq<string>) {
    f.OnFields? && exists x :: x in f.fields && x.key in keys && x.value != ""
  }

  /** The filter leaves its kind too wide for the dictionary. */
  predicate TooWide(ds: DsKind, h: Handler, f: HandlerFilter) {
    || (KindIs(ds, h, Block) && !(f.OnBlock? && f.modulo.Some? && f.modulo.value != 0))
    || (KindIs(ds, h, Transaction) && !NamesOneOf(f, ["sender", "receiver"]))
    || (KindIs(ds, h, Receipt) && !NamesOneOf(f, ["sender", "receiver", "signer"]))
    || (KindIs(ds, h, Action) && !NamesOneOf(f, ["type"]))
  }

  /** The handler has no filter at all, or one that is too wide. */
  ghost predicate NeedsFullScan(ds: DsKind, h: Handler) {
    (forall f :: !IsFilterOf(ds, h, f)) || exists f :: IsFilterOf(ds, h, f) && TooWide(ds, h, f)
  }

  ghost predicate FiltersAreObjects(ds: DsKind, h: Handler) {
    forall f :: IsFilterOf(ds, h, f) ==> IsObject(FieldsOf(f))
  }

  lemma {:induction false} PresentMember(fs: seq<Option<HandlerFilter>>, f: HandlerFilter)
    ensures f in Present(fs) <==> Some(f) in fs
  {
    if fs != [] {
      PresentMember(fs[1..], f);
      assert fs == [fs[0]] + fs[1..];
    }
  }

  lemma {:induction false} FilterListMember(ds: DsKind, h: Handler, f: HandlerFilter)
    ensures f in FilterList(ds, h) <==> IsFilterOf(ds, h, f)
  {
    if ds.Custom? {
      if ds.plugin.Some? && h.kind in ds.plugin.value {
        PresentMember(ds.plugin.value[h.kind].baseFilter, f);
      }
    } else {
      PresentMember([h.filter], f);
    }
  }

  lemma {:induction false} TruthyMember(f: seq<Field>, key: string)
    requires IsObject(f)
    ensures Truthy(f, key) <==> exists x :: x in f && x.key == key && x.value != ""
  {
    if Get(f, key).Some? {
      GetMember(f, key, Get(f, key).value);
      assert Field(key, Get(f, key).value) in f;
    }
    forall x | x in f && x.key == key ensures Get(f, key) == Some(x.value) {
      GetMember(f, key, x.value);
    }
  }

  lemma {:induction false} KindExact(ds: DsKind, h: Handler)
    requires !LookupFails(ds, h)
    ensures forall k :: KindIs(ds, h, k) <==> BaseKind(ds, h) == Some(k)
  {
  }

  lemma {:induction false} UsableExact(ds: DsKind, h: Handler, f: HandlerFilter)
    requires !LookupFails(ds, h) && IsObject(FieldsOf(f))
    ensures Usable(BaseKind(ds, h), f) <==> !TooWide(ds, h, f)
  {
    KindExact(ds, h);
    var fields := FieldsOf(f);
    TruthyMember(fields, "sender");
    TruthyMember(fields, "receiver");
    TruthyMember(fields, "signer");
    TruthyMember(fields, "type");
  }

  /** What a handler does to the compilation: it throws, or asks for a full scan, or contributes. */
  lemma {:induction false} HandlerExact(ds: DsKind, h: Handler)
    requires FiltersAreObjects(ds, h)
    ensures OutcomeOf(Handle(ds, h)).Throws? <==> LookupFails(ds, h)
    ensures OutcomeOf(Handle(ds, h)).Fallback? <==>
      !LookupFails(ds, h) && !AnswersItself(ds, h) && NeedsFullScan(ds, h)
    ensures AnswersItself(ds, h) && !LookupFails(ds, h) ==>
      OutcomeOf(Handle(ds, h)) == Contributes([h.query.value])
  {
    forall f ensures f in FilterList(ds, h) <==> IsFilterOf(ds, h, f) {
      FilterListMember(ds, h, f);
    }
    if !LookupFails(ds, h) {
      forall f | IsFilterOf(ds, h, f) ensures Usable(BaseKind(ds, h), f) <==> !TooWide(ds, h, f) {
        UsableExact(ds, h, f);
      }
      if FilterList(ds, h) != [] {
        assert FilterList(ds, h)[0] in FilterList(ds, h);
      }
    }
  }

  /** `e` asks, condition by condition, for equality with the properties of `f`. */
  predicate CompiledFrom(e: Entry, entity: string, f: HandlerFilter) {
    && e.entity == entity && |e.conditions| == |FieldsOf(f)|
    && forall i :: 0 <= i < |e.conditions| ==>
         e.conditions[i] == Condition(FieldsOf(f)[i].key, FieldsOf(f)[i].value, "equalTo")
  }

  predicate AllCompiledFrom(es: seq<Entry>, entity: string, fs: seq<HandlerFilter>) {
    |es| == |fs| && forall i :: 0 <= i < |es| ==> CompiledFrom(es[i], entity, fs[i])
  }

  /** `fs` are the defined members of `all`, in order. */
  ghost predicate DefinedMembers(all: seq<Option<HandlerFilter>>, fs: seq<HandlerFilter>, at: seq<nat>) {
    && |at| == |fs| && Increasing(at)
    && (forall i :: 0 <= i < |at| ==> at[i] < |all| && all[at[i]] == Some(fs[i]))
    && (forall k: nat :: k < |all| ==> (k in at <==> all[k].Some?))
  }

  lemma {:induction false} PresentPositions(all: seq<Option<HandlerFilter>>) returns (at: seq<nat>)
    ensures DefinedMembers(all, Present(all), at)
  {
    at := [];
    if all != [] {
      var pre, last := all[..|all| - 1], all[|all| - 1];
      at := PresentPositions(pre);
      PresentSnoc(pre, last);
      assert all == pre + [last];
      assert |pre| !in at;
      if last.Some? {
        var next := at + [|pre|];
        forall k: nat | k < |all| ensures k in next <==> all[k].Some? {
          assert k in next <==> k in at || k == |pre|;
        }
        at := next;
      }
    }
  }

  lemma {:induction false} PresentSnoc(pre: seq<Option<HandlerFilter>>, last: Option<HandlerFilter>)
    ensures Present(pre + [last]) == Present(pre) + if last.Some? then [last.value] else []
  {
    if pre == [] {
      assert pre + [last] == [last] && [last][1..] == [];
    } else {
      PresentSnoc(pre[1..], last);
      assert (pre + [last])[1..] == pre[1..] + [last];
    }
  }

  lemma {:induction false} EntriesCompiled(kind: Kind, fs: seq<HandlerFilter>)
    requires kind != Block
    ensures AllCompiledFrom(FlatMap(EntriesOf(Some(kind)), fs), EntityOf(kind), fs)
  {
    if fs != [] {
      EntriesCompiled(kind, fs[1..]);
      assert |EntriesFor(Some(kind), fs[0])| == 1;
      assert CompiledFrom(EntriesFor(Some(kind), fs[0])[0], EntityOf(kind), fs[0]);
    }
  }

  /** What a handler of each kind contributes, given its filters. */
  ghost predicate ContributesFor(kind: Option<Kind>, es: seq<Entry>, fs: seq<HandlerFilter>) {
    match kind
    case Some(Transaction) => AllCompiledFrom(es, "transactions", fs)
    case Some(Receipt) => AllCompiledFrom(es, "receipts", fs)
    case Some(Action) => AllCompiledFrom(es, "actions", fs)
    case _ => es == []
  }

  lemma {:induction false} ContributedEntries(ds: DsKind, h: Handler)
    requires OutcomeOf(Handle(ds, h)).Contributes? && !AnswersItself(ds, h)
    ensures !LookupFails(ds, h) && FilterList(ds, h) != []
    ensures ContributesFor(BaseKind(ds, h), OutcomeOf(Handle(ds, h)).entries, FilterList(ds, h))
  {
    match BaseKind(ds, h) {
      case None => NoEntries(None, FilterList(ds, h));
      case Some(kind) =>
        if kind == Block {
          NoEntries(Some(kind), FilterList(ds, h));
        } else {
          EntriesCompiled(kind, FilterList(ds, h));
        }
    }
  }

  /**
   * What a handler without an own query contributes: for the three item kinds one entry per defined filter, in
   * the order of the filters; nothing for block handlers and for handlers of no known kind.
   */
  lemma {:induction false} HandlerEntries(ds: DsKind, h: Handler) returns (fs: seq<HandlerFilter>, at: seq<nat>)
    requires OutcomeOf(Handle(ds, h)).Contributes? && !AnswersItself(ds, h)
    ensures !ds.Custom? ==> h.filter.Some? && fs == [h.filter.value]
    ensures ds.Custom? ==> ds.plugin.Some? && h.kind in ds.plugin.value
    ensures ds.Custom? ==> DefinedMembers(ds.plugin.value[h.kind].baseFilter, fs, at)
    ensures var es := OutcomeOf(Handle(ds, h)).entries;
      && (KindIs(ds, h, Transaction) ==> AllCompiledFrom(es, "transactions", fs))
      && (KindIs(ds, h, Receipt) ==> AllCompiledFrom(es, "receipts", fs))
      && (KindIs(ds, h, Action) ==> AllCompiledFrom(es, "actions", fs))
      && (!KindIs(ds, h, Transaction) && !KindIs(ds, h, Receipt) && !KindIs(ds, h, Action) ==> es == [])
  {
    ContributedEntries(ds, h);
    KindExact(ds, h);
    fs, at := FilterList(ds, h), [];
    if ds.Custom? {
      at := PresentPositions(ds.plugin.value[h.kind].baseFilter);
    } else {
      PresentSingle(h.filter);
    }
  }

  // The order in which the compiler looks at sources and handlers.

  /** How many looks the sources before position `i` take: one at the source, one at each handler. */
  function LooksBefore(dss: seq<DataSource>, i: nat): nat
    requires i <= |dss|
  {
    if i == 0 then 0 else LooksBefore(dss, i - 1) + 1 + |dss[i - 1].handlers|
  }

  predicate LooksAt(looks: seq<Visit>, ds: DataSource) {
    && |looks| == 1 + |ds.handlers| && looks[0] == Open(ds.kind)
    && forall k :: 0 < k < |looks| ==> looks[k] == Handle(ds.kind, ds.handlers[k - 1])
  }

  predicate LooksFollow(looks: seq<Visit>, dss: seq<DataSource>, i: nat)
    requires i < |dss|
  {
    var lo, hi := LooksBefore(dss, i), LooksBefore(dss, i + 1);
    lo <= hi <= |looks| && LooksAt(looks[lo..hi], dss[i])
  }

  /** Source after source, and handler after handler in each. */
  lemma {:induction false} VisitsInOrder(p: Project, startBlock: int)
    ensures var dss, looks := FilteredDs(p, startBlock), AllVisits(p, startBlock);
      |looks| == LooksBefore(dss, |dss|) && forall i :: 0 <= i < |dss| ==> LooksFollow(looks, dss, i)
  {
    var dss, looks := FilteredDs(p, startBlock), AllVisits(p, startBlock);
    LooksLength(dss, |dss|);
    assert dss[..|dss|] == dss;
    forall i | 0 <= i < |dss| ensures LooksFollow(looks, dss, i) {
      LooksLength(dss, i);
      FlatMapAt(VisitsOf, dss, i);
      LooksListed(dss[i]);
      assert looks[LooksBefore(dss, i)..LooksBefore(dss, i + 1)] == VisitsOf(dss[i]);
    }
  }

  lemma {:induction false} LooksListed(ds: DataSource)
    ensures LooksAt(VisitsOf(ds), ds)
  {
  }

  lemma {:induction false} LooksLength(dss: seq<DataSource>, i: nat)
    requires i <= |dss|
    ensures |FlatMap(VisitsOf, dss[..i])| == LooksBefore(dss, i)
  {
    if i > 0 {
      LooksLength(dss, i - 1);
      FlatMapStep(VisitsOf, dss, i - 1);
    }
  }

  /** The look at position `i` decides: all earlier ones contribute. */
  predicate DecidesAt(looks: seq<Visit>, i: nat) {
    i < |looks| && !OutcomeOf(looks[i]).Contributes? && forall j :: 0 <= j < i ==> OutcomeOf(looks[j]).Contributes?
  }

  lemma {:induction false} ScanDecides(looks: seq<Visit>, i: nat)
    requires DecidesAt(looks, i)
    ensures Scan(looks) == OutcomeOf(looks[i])
  {
    if i > 0 {
      forall j | 0 <= j < i - 1 ensures OutcomeOf(looks[1..][j]).Contributes? {
        assert looks[1..][j] == looks[j + 1];
      }
      ScanDecides(looks[1..], i - 1);
      assert OutcomeOf(looks[0]).Contributes?;
    }
  }

  lemma {:induction false} ScanCollects(looks: seq<Visit>)
    requires forall i :: 0 <= i < |looks| ==> OutcomeOf(looks[i]).Contributes?
    ensures Scan(looks) == Contributes(FlatMap(EntriesAt, looks))
  {
    if looks != [] {
      forall j | 0 <= j < |looks| - 1 ensures OutcomeOf(looks[1..][j]).Contributes? {
        assert looks[1..][j] == looks[j + 1];
      }
      ScanCollects(looks[1..]);
    }
  }

  /**
   * The first look that throws or asks for a full scan decides the compilation; otherwise the result holds the
   * first entry of every key among all contributed entries, in the order of the looks.
   */
  lemma {:induction false} CompileExact(p: Project, startBlock: int)
    ensures var looks := AllVisits(p, startBlock);
      && (forall i: nat :: DecidesAt(looks, i) ==>
            Compile(p, startBlock) == if OutcomeOf(looks[i]).Throws? then Err(HandlerLookupFailed) else Ok([]))
      && ((forall i :: 0 <= i < |looks| ==> OutcomeOf(looks[i]).Contributes?) ==>
            Compile(p, startBlock) == Ok(UniqBy(FlatMap(EntriesAt, looks))))
    ensures var looks := AllVisits(p, startBlock);
      (exists i: nat :: DecidesAt(looks, i)) || forall i :: 0 <= i < |looks| ==> OutcomeOf(looks[i]).Contributes?
  {
    var looks := AllVisits(p, startBlock);
    forall i: nat | DecidesAt(looks, i) ensures Scan(looks) == OutcomeOf(looks[i]) {
      ScanDecides(looks, i);
    }
    if forall i :: 0 <= i < |looks| ==> OutcomeOf(looks[i]).Contributes? {
      ScanCollects(looks);
    } else {
      var i := FirstDecision(looks, |looks|);
    }
  }

  lemma {:induction false} FirstDecision(looks: seq<Visit>, n: nat) returns (i: nat)
    requires n <= |looks| && exists j :: 0 <= j < n && !OutcomeOf(looks[j]).Contributes?
    ensures DecidesAt(looks, i)
  {
    i := n - 1;
    if exists j :: 0 <= j < n - 1 && !OutcomeOf(looks[j]).Contributes? {
      i := FirstDecision(looks, n - 1);
    }
  }

  // The fallback.

  /** A handler of a source that has started. */
  predicate Considered(p: Project, startBlock: int, ds: DataSource, h: Handler) {
    && (ds in p.dataSources || ds in p.dynamicDataSources)
    && ds.startBlock.Some? && ds.startBlock.value <= startBlock && h in ds.handlers
  }

  /** No lookup fails for a source that has started, and its filters are objects. */
  ghost predicate WellFormed(p: Project, startBlock: int) {
    && (forall ds :: ds in p.dataSources || ds in p.dynamicDataSources ==>
          ds.startBlock.Some? && ds.startBlock.value <= startBlock ==> !(ds.kind.Custom? && ds.kind.plugin.None?))
    && (forall ds, h :: Considered(p, startBlock, ds, h) ==>
          !LookupFails(ds.kind, h) && FiltersAreObjects(ds.kind, h))
  }

  lemma {:induction false} LookOrigin(p: Project, startBlock: int, v: Visit) returns (ds: DataSource)
    requires v in AllVisits(p, startBlock)
    ensures (ds in p.dataSources || ds in p.dynamicDataSources) && Started(ds, startBlock)
    ensures v == Open(ds.kind) || (v.Handle? && v.ds == ds.kind && Considered(p, startBlock, ds, v.handler))
  {
    FlatMapMember(VisitsOf, FilteredDs(p, startBlock), v);
    ds :| ds in FilteredDs(p, startBlock) && v in VisitsOf(ds);
    FilteredDsMember(p, startBlock, ds);
  }

  lemma {:induction false} WellFormedNoThrow(p: Project, startBlock: int)
    requires WellFormed(p, startBlock)
    ensures NoThrow(p, startBlock)
  {
    forall v | v in AllVisits(p, startBlock) ensures !OutcomeOf(v).Throws? {
      var ds := LookOrigin(p, startBlock, v);
      if v.Handle? {
        HandlerExact(v.ds, v.handler);
      }
    }
  }

  /** A considered handler, on its own, forces a full scan. */
  ghost predicate SomeNeedsFullScan(p: Project, startBlock: int) {
    exists ds, h :: Considered(p, startBlock, ds, h) && !AnswersItself(ds.kind, h) && NeedsFullScan(ds.kind, h)
  }

  /** No considered handler is of an item kind or has its own query. */
  ghost predicate NoneContributes(p: Project, startBlock: int) {
    forall ds, h :: Considered(p, startBlock, ds, h) ==>
      && !AnswersItself(ds.kind, h) && !KindIs(ds.kind, h, Transaction)
      && !KindIs(ds.kind, h, Receipt) && !KindIs(ds.kind, h, Action)
  }

  lemma {:induction false} FallsBackExact(p: Project, startBlock: int)
    requires WellFormed(p, startBlock)
    ensures FallsBack(AllVisits(p, startBlock)) <==> SomeNeedsFullScan(p, startBlock)
  {
    var looks := AllVisits(p, startBlock);
    if FallsBack(looks) {
      var v :| v in looks && OutcomeOf(v).Fallback?;
      var ds := LookOrigin(p, startBlock, v);
      HandlerExact(v.ds, v.handler);
    }
    if SomeNeedsFullScan(p, startBlock) {
      var ds, h :|
        Considered(p, startBlock, ds, h) && !AnswersItself(ds.kind, h) && NeedsFullScan(ds.kind, h);
      ActiveVisit(p, startBlock, ds, h);
      HandlerExact(ds.kind, h);
    }
  }

  lemma {:induction false} EmptyContribution(ds: DsKind, h: Handler)
    requires FiltersAreObjects(ds, h) && OutcomeOf(Handle(ds, h)).Contributes?
    ensures EntriesAt(Handle(ds, h)) == [] <==>
      !AnswersItself(ds, h) && !KindIs(ds, h, Transaction) && !KindIs(ds, h, Receipt) && !KindIs(ds, h, Action)
  {
    HandlerExact(ds, h);
    if !AnswersItself(ds, h) {
      ContributedEntries(ds, h);
      KindExact(ds, h);
    }
  }

  lemma {:induction false} NothingCollected(p: Project, startBlock: int)
    requires WellFormed(p, startBlock) && !FallsBack(AllVisits(p, startBlock))
    ensures FlatMap(EntriesAt, AllVisits(p, startBlock)) == [] <==> NoneContributes(p, startBlock)
  {
    var looks := AllVisits(p, startBlock);
    var all := FlatMap(EntriesAt, looks);
    WellFormedNoThrow(p, startBlock);
    forall ds, h | Considered(p, startBlock, ds, h)
      ensures Handle(ds.kind, h) in looks && OutcomeOf(Handle(ds.kind, h)).Contributes?
    {
      ActiveVisit(p, startBlock, ds, h);
    }
    if all == [] {
      forall ds, h | Considered(p, startBlock, ds, h) ensures EntriesAt(Handle(ds.kind, h)) == [] {
        PartOfNothing(looks, Handle(ds.kind, h));
      }
      forall ds, h | Considered(p, startBlock, ds, h)
        ensures !AnswersItself(ds.kind, h) && !KindIs(ds.kind, h, Transaction)
        ensures !KindIs(ds.kind, h, Receipt) && !KindIs(ds.kind, h, Action)
      {
        EmptyContribution(ds.kind, h);
      }
    } else {
      FlatMapMember(EntriesAt, looks, all[0]);
      var v :| v in looks && all[0] in EntriesAt(v);
      var ds := LookOrigin(p, startBlock, v);
      EmptyContribution(v.ds, v.handler);
    }
  }

  lemma {:induction false} PartOfNothing(looks: seq<Visit>, v: Visit)
    requires FlatMap(EntriesAt, looks) == [] && v in looks
    ensures EntriesAt(v) == []
  {
    if EntriesAt(v) != [] {
      FlatMapContains(EntriesAt, looks, v, EntriesAt(v)[0]);
    }
  }

  /**
   * When no lookup fails, the compiler asks for a full scan exactly when some handler of a started source has no
   * filter or one too wide for its kind, or when no handler has anything to contribute.
   */
  lemma {:induction false} FallbackExact(p: Project, startBlock: int)
    requires WellFormed(p, startBlock)
    ensures Compile(p, startBlock) == Ok([]) <==> SomeNeedsFullScan(p, startBlock) || NoneContributes(p, startBlock)
  {
    var looks := AllVisits(p, startBlock);
    WellFormedNoThrow(p, startBlock);
    ScanExact(looks);
    FallsBackExact(p, startBlock);
    if !FallsBack(looks) {
      UniqByEmpty(FlatMap(EntriesAt, looks));
      NothingCollected(p, startBlock);
    }
  }

  // The moduli.

  /** Handler `j` of source `i` asks for modulus `m`, and the source is not custom. */
  predicate AsksModuloAt(dss: seq<DataSource>, i: nat, j: nat, m: int) {
    i < |dss| && !dss[i].kind.Custom? && j < |dss[i].handlers| && AsksModulo(dss[i].handlers[j], m)
  }

  predicate Before(x: (nat, nat), y: (nat, nat)) { x.0 < y.0 || (x.0 == y.0 && x.1 < y.1) }

  /** `ms` lists, source by source and handler by handler, each modulus asked for; `at` are the places. */
  ghost predicate ModulosAt(dss: seq<DataSource>, ms: seq<int>, at: seq<(nat, nat)>) {
    && |at| == |ms| && (forall k, l :: 0 <= k < l < |at| ==> Before(at[k], at[l]))
    && (forall k :: 0 <= k < |at| ==> AsksModuloAt(dss, at[k].0, at[k].1, ms[k]))
    && (forall i: nat, j: nat, m :: AsksModuloAt(dss, i, j, m) ==> (i, j) in at)
  }

  /** The same within one source. */
  ghost predicate HandlerModulosAt(hs: seq<Handler>, ms: seq<int>, at: seq<nat>) {
    && |at| == |ms| && Increasing(at)
    && (forall k :: 0 <= k < |at| ==> at[k] < |hs| && AsksModulo(hs[at[k]], ms[k]))
    && (forall j: nat, m :: j < |hs| && AsksModulo(hs[j], m) ==> j in at)
  }

  lemma {:induction false} HandlerModulosExact(hs: seq<Handler>) returns (at: seq<nat>)
    ensures HandlerModulosAt(hs, FlatMap(HandlerModulos, hs), at)
  {
    at := [];
    if hs != [] {
      var pre, last := hs[..|hs| - 1], hs[|hs| - 1];
      at := HandlerModulosExact(pre);
      FlatMapSnoc(HandlerModulos, pre, last);
      assert hs == pre + [last];
      if HandlerModulos(last) != [] {
        at := at + [|pre|];
      }
    }
  }

  lemma {:induction false} SourceModulosExact(ds: DataSource) returns (at: seq<nat>)
    ensures HandlerModulosAt(if ds.kind.Custom? then [] else ds.handlers, DsModulos(ds), at)
  {
    if ds.kind.Custom? {
      at := [];
    } else {
      at := HandlerModulosExact(ds.handlers);
    }
  }

  function Within(i: nat): nat -> (nat, nat) { j => (i, j) }

  lemma {:induction false} AppendPlaces(
    pre: seq<DataSource>, last: DataSource, ms: seq<int>, at: seq<(nat, nat)>, own: seq<int>, ownAt: seq<nat>)
    requires ModulosAt(pre, ms, at)
    requires HandlerModulosAt(if last.kind.Custom? then [] else last.handlers, own, ownAt)
    ensures var next := at + Map(Within(|pre|), ownAt);
      && (forall k :: 0 <= k < |next| ==> AsksModuloAt(pre + [last], next[k].0, next[k].1, (ms + own)[k]))
      && (forall k, l :: 0 <= k < l < |next| ==> Before(next[k], next[l]))
  {
    var next := at + Map(Within(|pre|), ownAt);
    forall k | 0 <= k < |at| ensures at[k].0 < |pre| && AsksModuloAt(pre + [last], at[k].0, at[k].1, ms[k]) {
      assert AsksModuloAt(pre, at[k].0, at[k].1, ms[k]);
    }
  }

  lemma {:induction false} AppendModulos(
    pre: seq<DataSource>, last: DataSource, ms: seq<int>, at: seq<(nat, nat)>, own: seq<int>, ownAt: seq<nat>)
    requires ModulosAt(pre, ms, at)
    requires HandlerModulosAt(if last.kind.Custom? then [] else last.handlers, own, ownAt)
    ensures ModulosAt(pre + [last], ms + own, at + Map(Within(|pre|), ownAt))
  {
    var dss, next := pre + [last], at + Map(Within(|pre|), ownAt);
    AppendPlaces(pre, last, ms, at, own, ownAt);
    forall i: nat, j: nat, m | AsksModuloAt(dss, i, j, m) ensures (i, j) in next {
      if i < |pre| {
        assert AsksModuloAt(pre, i, j, m);
      } else {
        assert j in ownAt;
        var k :| 0 <= k < |ownAt| && ownAt[k] == j;
        assert Map(Within(|pre|), ownAt)[k] == (i, j);
      }
    }
  }

  lemma {:induction false} ModulosOfSources(dss: seq<DataSource>) returns (at: seq<(nat, nat)>)
    ensures ModulosAt(dss, FlatMap(DsModulos, dss), at)
  {
    at := [];
    if dss != [] {
      var pre, last := dss[..|dss| - 1], dss[|dss| - 1];
      at := ModulosOfSources(pre);
      var ownAt := SourceModulosExact(last);
      AppendModulos(pre, last, FlatMap(DsModulos, pre), at, DsModulos(last), ownAt);
      FlatMapSnoc(DsModulos, pre, last);
      assert dss == pre + [last];
      at := at + Map(Within(|pre|), ownAt);
    }
  }

  /** `getModulos` lists the moduli of the static non-custom block handlers, place by place, and no others. */
  lemma {:induction false} ModulosExact(p: Project) returns (at: seq<(nat, nat)>)
    ensures ModulosAt(p.dataSources, Modulos(p), at)
  {
    at := ModulosOfSources(p.dataSources);
  }
}
