/** Deduplication of query entries: lodash `uniqBy` over entries keyed by entity and field-sorted conditions. */
module Dedup {
  import opened Seqs
  import opened NearTypes
  import opened Filters
  import opened QueryEntries

  /** Lexicographic order of strings by code unit. */
  predicate Le(a: string, b: string) {
    a == "" || (b != "" && (a[0] < b[0] || (a[0] == b[0] && Le(a[1..], b[1..]))))
  }

  lemma {:induction false} LeTotal(a: string, b: string)
    ensures Le(a, b) || Le(b, a)
  {
    if a != "" && b != "" {
      LeTotal(a[1..], b[1..]);
    }
  }

  lemma {:induction false} LeTransitive(a: string, b: string, c: string)
    requires Le(a, b) && Le(b, c)
    ensures Le(a, c)
  {
    if a != "" && a[0] == b[0] && b[0] == c[0] {
      LeTransitive(a[1..], b[1..], c[1..]);
    }
  }

  lemma {:induction false} LeAntisymmetric(a: string, b: string)
    requires Le(a, b) && Le(b, a)
    ensures a == b
  {
    if a != "" {
      LeAntisymmetric(a[1..], b[1..]);
      assert a == [a[0]] + a[1..] && b == [b[0]] + b[1..];
    }
  }

  /** Stable insertion: `c` goes before the first element whose field is not smaller. */
  function InsertByField(c: Condition, s: seq<Condition>): seq<Condition> {
    if s == [] || Le(c.field, s[0].field) then [c] + s else [s[0]] + InsertByField(c, s[1..])
  }

  /** `sortBy(conditions, (c) => c.field)` */
  function SortByField(s: seq<Condition>): seq<Condition> {
    if s == [] then [] else InsertByField(s[0], SortByField(s[1..]))
  }

  predicate Sorted(s: seq<Condition>) {
    forall i, j :: 0 <= i < j < |s| ==> Le(s[i].field, s[j].field)
  }

  predicate DistinctFields(s: seq<Condition>) {
    forall i, j :: 0 <= i < j < |s| ==> s[i].field != s[j].field
  }

  lemma {:induction false} InsertLaws(c: Condition, s: seq<Condition>)
    ensures multiset(InsertByField(c, s)) == multiset(s) + multiset{c}
    ensures Sorted(s) ==> Sorted(InsertByField(c, s))
  {
    if s == [] {
    } else if Le(c.field, s[0].field) {
      forall j | 0 <= j < |s| && Sorted(s) ensures Le(c.field, s[j].field) {
        if j > 0 {
          LeTransitive(c.field, s[0].field, s[j].field);
        }
      }
    } else {
      LeTotal(c.field, s[0].field);
      InsertLaws(c, s[1..]);
      assert s == [s[0]] + s[1..];
      var rest := InsertByField(c, s[1..]);
      forall j | 0 <= j < |rest| && Sorted(s) ensures Le(s[0].field, rest[j].field) {
        assert rest[j] in multiset(rest);
        if rest[j] != c {
          assert rest[j] in s[1..];
          var k :| 0 <= k < |s[1..]| && s[1..][k] == rest[j];
          assert s[k + 1] == rest[j];
        }
      }
    }
  }

  lemma {:induction false} SortLaws(s: seq<Condition>)
    ensures multiset(SortByField(s)) == multiset(s)
    ensures Sorted(SortByField(s))
  {
    if s != [] {
      SortLaws(s[1..]);
      InsertLaws(s[0], SortByField(s[1..]));
      assert s == [s[0]] + s[1..];
    }
  }

  lemma {:induction false} DistinctFieldsPermutation(s: seq<Condition>, t: seq<Condition>)
    requires multiset(s) == multiset(t) && DistinctFields(s)
    ensures DistinctFields(t)
  {
    assert NoDup(s);
    NoDupPermutation(s, t);
    forall i, j | 0 <= i < j < |t| ensures t[i].field != t[j].field {
      SameMultisetMember(s, t, t[i]);
      SameMultisetMember(s, t, t[j]);
      var k :| 0 <= k < |s| && s[k] == t[i];
      var l :| 0 <= l < |s| && s[l] == t[j];
    }
  }

  /** The least condition heads every sorted arrangement. */
  lemma {:induction false} SameHead(s: seq<Condition>, t: seq<Condition>)
    requires Sorted(s) && Sorted(t) && DistinctFields(s) && multiset(s) == multiset(t) && s != [] && t != []
    ensures s[0] == t[0]
  {
    SameMultisetMember(s, t, s[0]);
    SameMultisetMember(s, t, t[0]);
    var i :| 0 <= i < |t| && t[i] == s[0];
    var j :| 0 <= j < |s| && s[j] == t[0];
    if i != 0 && j != 0 {
      LeAntisymmetric(s[0].field, s[j].field);
    }
  }

  /** Two sorted lists with distinct fields and the same conditions are the same list. */
  lemma {:induction false} SortedUnique(s: seq<Condition>, t: seq<Condition>)
    requires Sorted(s) && Sorted(t) && DistinctFields(s) && multiset(s) == multiset(t)
    ensures s == t
  {
    SameMultisetLength(s, t);
    if s != [] {
      SameHead(s, t);
      TailMultiset(s);
      TailMultiset(t);
      SortedUnique(s[1..], t[1..]);
      assert s == [s[0]] + s[1..] && t == [t[0]] + t[1..];
    }
  }

  /** Sorting a list with distinct fields is canonical. */
  lemma {:induction false} SortCanonical(s: seq<Condition>, t: seq<Condition>)
    requires DistinctFields(s)
    ensures SortByField(s) == SortByField(t) <==> multiset(s) == multiset(t)
  {
    SortLaws(s);
    SortLaws(t);
    if multiset(s) == multiset(t) {
      DistinctFieldsPermutation(s, SortByField(s));
      SortedUnique(SortByField(s), SortByField(t));
    }
  }

  /** The key `uniqBy` compares. */
  function Key(e: Entry): (string, seq<Condition>) { (e.entity, SortByField(e.conditions)) }

  /**
   * Entries with equal keys have the same conditions, so they select the same rows of the same entity (whatever
   * their matchers mean).
   */
  lemma {:induction false} KeyMeaning(e: Entry, e': Entry, row: Row)
    requires Key(e) == Key(e')
    ensures e.entity == e'.entity && multiset(e.conditions) == multiset(e'.conditions)
    ensures EntryHolds(e, row) <==> EntryHolds(e', row)
  {
    SortLaws(e.conditions);
    SortLaws(e'.conditions);
    forall c ensures c in e.conditions <==> c in e'.conditions {
      SameMultisetMember(e.conditions, e'.conditions, c);
    }
  }

  function OnField(field: string): Condition -> bool { (c: Condition) => c.field == field }

  lemma {:induction false} InsertIsStable(c: Condition, s: seq<Condition>, field: string)
    ensures Filter(OnField(field), InsertByField(c, s)) == Filter(OnField(field), [c] + s)
  {
    LeTotal(c.field, c.field);
    if s != [] && !Le(c.field, s[0].field) {
      var p, rest := OnField(field), s[1..];
      InsertIsStable(c, rest, field);
      FilterPrepend(p, s[0], InsertByField(c, rest));
      FilterPrepend(p, s[0], [c] + rest);
      if p(c) {
        FilterSwap(p, s[0], c, rest);
      } else {
        FilterSwap(p, c, s[0], rest);
      }
      assert s == [s[0]] + rest;
    }
  }

  lemma {:induction false} SortIsStable(s: seq<Condition>, field: string)
    ensures Filter(OnField(field), SortByField(s)) == Filter(OnField(field), s)
  {
    if s != [] {
      SortIsStable(s[1..], field);
      InsertIsStable(s[0], SortByField(s[1..]), field);
      FilterPrepend(OnField(field), s[0], SortByField(s[1..]));
      FilterPrepend(OnField(field), s[0], s[1..]);
      assert s == [s[0]] + s[1..];
    }
  }

  lemma {:induction false} SortedHead(s: seq<Condition>, t: seq<Condition>)
    requires Sorted(s) && Sorted(t) && s != []
    requires forall field :: Filter(OnField(field), s) == Filter(OnField(field), t)
    ensures t != [] && t[0] == s[0]
  {
    assert s[0] in Filter(OnField(s[0].field), s);
    assert s[0] in t;
    assert t[0] in Filter(OnField(t[0].field), t);
    assert t[0] in s;
    LeTotal(s[0].field, s[0].field);
    var i :| 0 <= i < |t| && t[i] == s[0];
    var j :| 0 <= j < |s| && s[j] == t[0];
    LeAntisymmetric(s[0].field, t[0].field);
    assert Filter(OnField(s[0].field), s)[0] == s[0];
    assert Filter(OnField(s[0].field), t)[0] == t[0];
  }

  lemma {:induction false} FilterTail(p: Condition -> bool, s: seq<Condition>, t: seq<Condition>)
    requires s != [] && t != [] && s[0] == t[0] && Filter(p, s) == Filter(p, t)
    ensures Filter(p, s[1..]) == Filter(p, t[1..])
  {
    var own := if p(s[0]) then [s[0]] else [];
    assert Filter(p, s)[|own|..] == Filter(p, s[1..]);
    assert Filter(p, t)[|own|..] == Filter(p, t[1..]);
  }

  /** Sorted lists are told apart by what they hold for some field, in order. */
  lemma {:induction false} SortedByFields(s: seq<Condition>, t: seq<Condition>)
    requires Sorted(s) && Sorted(t)
    requires forall field :: Filter(OnField(field), s) == Filter(OnField(field), t)
    ensures s == t
  {
    if s == [] {
      if t != [] {
        SortedHead(t, s);
      }
    } else {
      SortedHead(s, t);
      forall field ensures Filter(OnField(field), s[1..]) == Filter(OnField(field), t[1..]) {
        FilterTail(OnField(field), s, t);
      }
      SortedByFields(s[1..], t[1..]);
    }
  }

  /**
   * Exactly when `uniqBy` takes two entries for the same: they have one entity and, field by field, the same
   * conditions in the same order. Conditions on different fields may come in any order.
   */
  lemma {:induction false} KeyExact(e: Entry, e': Entry)
    ensures Key(e) == Key(e') <==>
      e.entity == e'.entity &&
      forall field :: Filter(OnField(field), e.conditions) == Filter(OnField(field), e'.conditions)
  {
    SortLaws(e.conditions);
    SortLaws(e'.conditions);
    forall field
      ensures Filter(OnField(field), SortByField(e.conditions)) == Filter(OnField(field), e.conditions)
      ensures Filter(OnField(field), SortByField(e'.conditions)) == Filter(OnField(field), e'.conditions)
    {
      SortIsStable(e.conditions, field);
      SortIsStable(e'.conditions, field);
    }
    if forall field :: Filter(OnField(field), e.conditions) == Filter(OnField(field), e'.conditions) {
      SortedByFields(SortByField(e.conditions), SortByField(e'.conditions));
    }
  }

  /** Two filters that differ only in the order of their properties compile to entries with the same key. */
  lemma {:induction false} KeyOrderIrrelevant(f: seq<Field>, f': seq<Field>, entity: string)
    requires IsObject(f) && multiset(f) == multiset(f')
    ensures Key(Entry(entity, Map(ToCondition, f))) == Key(Entry(entity, Map(ToCondition, f')))
  {
    MapPermutation(ToCondition, f, f');
    assert DistinctFields(Map(ToCondition, f));
    SortCanonical(Map(ToCondition, f), Map(ToCondition, f'));
  }

  predicate HasKey(s: seq<Entry>, key: (string, seq<Condition>)) {
    exists e :: e in s && Key(e) == key
  }

  /** `uniqBy(entries, key)`: the first entry of every key, in order. */
  function UniqBy(s: seq<Entry>): seq<Entry> {
    if s == [] then []
    else
      var seen, last := UniqBy(s[..|s| - 1]), s[|s| - 1];
      if HasKey(seen, Key(last)) then seen else seen + [last]
  }

  /** The kept positions are increasing, and position `p` is kept exactly when no earlier entry has its key. */
  ghost predicate FirstOccurrences(s: seq<Entry>, u: seq<Entry>, at: seq<nat>) {
    && |at| == |u| && Increasing(at)
    && (forall i :: 0 <= i < |at| ==> at[i] < |s| && s[at[i]] == u[i])
    && (forall p: nat :: p < |s| ==> (p in at <==> !HasKey(s[..p], Key(s[p]))))
  }

  lemma {:induction false} UniqKeys(s: seq<Entry>, key: (string, seq<Condition>))
    ensures HasKey(UniqBy(s), key) <==> HasKey(s, key)
  {
    if s != [] {
      UniqKeys(s[..|s| - 1], key);
      assert s == s[..|s| - 1] + [s[|s| - 1]];
      var seen, last := UniqBy(s[..|s| - 1]), s[|s| - 1];
      if key == Key(last) {
        assert last in s && last in seen + [last];
      }
    }
  }

  lemma {:induction false} ExtendKept(pre: seq<Entry>, last: Entry, u: seq<Entry>, at: seq<nat>)
    requires FirstOccurrences(pre, u, at) && !HasKey(pre, Key(last))
    ensures FirstOccurrences(pre + [last], u + [last], at + [|pre|])
  {
    var s, at' := pre + [last], at + [|pre|];
    forall p: nat | p < |s| ensures p in at' <==> !HasKey(s[..p], Key(s[p])) {
      assert s[..p] == pre[..p];
      assert p in at' <==> p in at || p == |pre|;
    }
  }

  lemma {:induction false} ExtendSkipped(pre: seq<Entry>, last: Entry, u: seq<Entry>, at: seq<nat>)
    requires FirstOccurrences(pre, u, at) && HasKey(pre, Key(last))
    ensures FirstOccurrences(pre + [last], u, at)
  {
    var s := pre + [last];
    forall p: nat | p < |s| ensures p in at <==> !HasKey(s[..p], Key(s[p])) {
      assert s[..p] == pre[..p];
    }
  }

  lemma {:induction false} UniqStep(pre: seq<Entry>, last: Entry)
    ensures UniqBy(pre + [last]) == if HasKey(pre, Key(last)) then UniqBy(pre) else UniqBy(pre) + [last]
  {
    UniqKeys(pre, Key(last));
    assert (pre + [last])[..|pre|] == pre;
  }

  /** `uniqBy` keeps the first occurrence of every key, in order. */
  lemma {:induction false} UniqByExact(s: seq<Entry>) returns (at: seq<nat>)
    ensures FirstOccurrences(s, UniqBy(s), at)
  {
    at := [];
    if s != [] {
      var pre, last := s[..|s| - 1], s[|s| - 1];
      assert s == pre + [last];
      at := UniqByExact(pre);
      UniqStep(pre, last);
      if HasKey(pre, Key(last)) {
        ExtendSkipped(pre, last, UniqBy(pre), at);
      } else {
        ExtendKept(pre, last, UniqBy(pre), at);
        at := at + [|pre|];
      }
    }
  }

  lemma {:induction false} UniqByDistinct(s: seq<Entry>)
    ensures forall i, j :: 0 <= i < j < |UniqBy(s)| ==> Key(UniqBy(s)[i]) != Key(UniqBy(s)[j])
  {
    if s != [] {
      UniqByDistinct(s[..|s| - 1]);
      var seen, last := UniqBy(s[..|s| - 1]), s[|s| - 1];
      if !HasKey(seen, Key(last)) {
        forall i | 0 <= i < |seen| ensures Key(seen[i]) != Key(last) {
          assert seen[i] in seen;
        }
      }
    }
  }

  /** Entries of two filters that differ only in property order collapse to one kept entry. */
  lemma {:induction false} ReorderedFiltersCollapse(s: seq<Entry>, f: seq<Field>, f': seq<Field>, entity: string)
    returns (kept: nat)
    requires IsObject(f) && multiset(f) == multiset(f')
    requires Entry(entity, Map(ToCondition, f)) in s && Entry(entity, Map(ToCondition, f')) in s
    ensures kept < |UniqBy(s)|
    ensures forall i :: 0 <= i < |UniqBy(s)| ==>
      (Key(UniqBy(s)[i]) == Key(Entry(entity, Map(ToCondition, f))) <==> i == kept)
    ensures forall i :: 0 <= i < |UniqBy(s)| ==>
      (Key(UniqBy(s)[i]) == Key(Entry(entity, Map(ToCondition, f'))) <==> i == kept)
  {
    var e := Entry(entity, Map(ToCondition, f));
    KeyOrderIrrelevant(f, f', entity);
    UniqKeys(s, Key(e));
    UniqByDistinct(s);
    var e' :| e' in UniqBy(s) && Key(e') == Key(e);
    kept :| kept < |UniqBy(s)| && UniqBy(s)[kept] == e';
  }

  /** Deduplication preserves meaning: some kept entry selects the row exactly when some entry does. */
  lemma {:induction false} UniqByMeaning(s: seq<Entry>, entity: string, row: Row)
    ensures Selects(UniqBy(s), entity, row) <==> Selects(s, entity, row)
  {
    if Selects(s, entity, row) {
      var e :| e in s && e.entity == entity && EntryHolds(e, row);
      UniqKeys(s, Key(e));
      var e' :| e' in UniqBy(s) && Key(e') == Key(e);
      KeyMeaning(e, e', row);
    }
    if Selects(UniqBy(s), entity, row) {
      var e :| e in UniqBy(s) && e.entity == entity && EntryHolds(e, row);
      UniqMember(s, e);
    }
  }

  lemma {:induction false} UniqMember(s: seq<Entry>, e: Entry)
    requires e in UniqBy(s)
    ensures e in s
  {
    if s != [] && e in UniqBy(s[..|s| - 1]) {
      UniqMember(s[..|s| - 1], e);
    }
  }

  /** A list of entries is a disjunction. */
  predicate Selects(s: seq<Entry>, entity: string, row: Row) {
    exists e :: e in s && e.entity == entity && EntryHolds(e, row)
  }
}
