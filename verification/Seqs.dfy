/** Sequences, options and results shared by every other module. */
module Seqs {

  datatype Option<+T> = None | Some(value: T) {
    function GetOr(default: T): T { if Some? then value else default }
  }

  datatype Result<+T, +E> = Ok(value: T) | Err(error: E)

  /** `f` applied to each element, results kept in order. */
  function Map<A, B>(f: A -> B, s: seq<A>): (r: seq<B>)
    ensures |r| == |s|
    ensures forall i :: 0 <= i < |s| ==> r[i] == f(s[i])
  {
    seq(|s|, i requires 0 <= i < |s| => f(s[i]))
  }

  /** The lists `f` yields, one after the other. */
  function FlatMap<A, B>(f: A -> seq<B>, s: seq<A>): seq<B>
  {
    if s == [] then [] else f(s[0]) + FlatMap(f, s[1..])
  }

  /** The elements satisfying `p`, in order. */
  function Filter<A>(p: A -> bool, s: seq<A>): (r: seq<A>)
    ensures forall x :: x in r ==> x in s && p(x)
    ensures forall x :: x in s && p(x) ==> x in r
  {
    if s == [] then []
    else
      assert s == [s[0]] + s[1..];
      (if p(s[0]) then [s[0]] else []) + Filter(p, s[1..])
  }

  predicate NoDup<A(==)>(s: seq<A>)
  {
    forall i, j :: 0 <= i < j < |s| ==> s[i] != s[j]
  }

  /** Each element's list of the two-level structure is in the flat list. */
  lemma {:induction false} FlatMapMember<A, B>(f: A -> seq<B>, s: seq<A>, y: B)
    ensures y in FlatMap(f, s) <==> exists x :: x in s && y in f(x)
  {
    if s != [] {
      FlatMapMember(f, s[1..], y);
      assert s == [s[0]] + s[1..];
    }
  }

  lemma {:induction false} FlatMapConcat<A, B>(f: A -> seq<B>, s: seq<A>, t: seq<A>)
    ensures FlatMap(f, s + t) == FlatMap(f, s) + FlatMap(f, t)
  {
    if s == [] {
      assert s + t == t;
    } else {
      FlatMapConcat(f, s[1..], t);
      assert (s + t)[1..] == s[1..] + t;
    }
  }

  lemma {:induction false} FlatMapSingle<A, B>(f: A -> seq<B>, x: A)
    ensures FlatMap(f, [x]) == f(x)
  {
    assert FlatMap(f, [x][1..]) == [];
  }

  lemma {:induction false} FlatMapSnoc<A, B>(f: A -> seq<B>, s: seq<A>, x: A)
    ensures FlatMap(f, s + [x]) == FlatMap(f, s) + f(x)
  {
    FlatMapConcat(f, s, [x]);
    FlatMapSingle(f, x);
  }

  lemma {:induction false} TakeSnoc<A>(s: seq<A>, i: nat)
    requires i < |s|
    ensures s[..i + 1] == s[..i] + [s[i]]
  {
  }

  lemma {:induction false} ConcatAssociative<A>(s: seq<A>, t: seq<A>, u: seq<A>)
    ensures s + t + u == s + (t + u)
  {
  }

  lemma {:induction false} FlatMapStep<A, B>(f: A -> seq<B>, s: seq<A>, i: nat)
    requires i < |s|
    ensures FlatMap(f, s[..i + 1]) == FlatMap(f, s[..i]) + f(s[i])
  {
    FlatMapSnoc(f, s[..i], s[i]);
    assert s[..i + 1] == s[..i] + [s[i]];
  }

  /** A flat-mapped list around the element at position `i`. */
  lemma {:induction false} FlatMapAt<A, B>(f: A -> seq<B>, s: seq<A>, i: nat)
    requires i < |s|
    ensures FlatMap(f, s) == FlatMap(f, s[..i]) + f(s[i]) + FlatMap(f, s[i + 1..])
  {
    FlatMapSnoc(f, s[..i], s[i]);
    FlatMapConcat(f, s[..i] + [s[i]], s[i + 1..]);
    assert s == s[..i] + [s[i]] + s[i + 1..];
  }

  lemma {:induction false} FlatMapAgree<A, B>(f: A -> seq<B>, g: A -> seq<B>, s: seq<A>)
    requires forall x :: x in s ==> f(x) == g(x)
    ensures FlatMap(f, s) == FlatMap(g, s)
  {
    if s != [] {
      FlatMapAgree(f, g, s[1..]);
    }
  }

  lemma {:induction false} FilterConcat<A>(p: A -> bool, s: seq<A>, t: seq<A>)
    ensures Filter(p, s + t) == Filter(p, s) + Filter(p, t)
  {
    if s == [] {
      assert s + t == t;
    } else {
      FilterConcat(p, s[1..], t);
      assert (s + t)[1..] == s[1..] + t && (s + t)[0] == s[0];
      ConcatAssociative(if p(s[0]) then [s[0]] else [], Filter(p, s[1..]), Filter(p, t));
    }
  }

  lemma {:induction false} FilterAll<A>(p: A -> bool, s: seq<A>)
    requires forall x :: x in s ==> p(x)
    ensures Filter(p, s) == s
  {
    if s != [] {
      FilterAll(p, s[1..]);
    }
  }

  lemma {:induction false} FilterNone<A>(p: A -> bool, s: seq<A>)
    requires forall x :: x in s ==> !p(x)
    ensures Filter(p, s) == []
  {
    if s != [] {
      FilterNone(p, s[1..]);
    }
  }

  /** Filtering in two passes. */
  lemma {:induction false} FilterFilter<A>(p: A -> bool, q: A -> bool, r: A -> bool, s: seq<A>)
    requires forall x :: x in s ==> (r(x) <==> p(x) && q(x))
    ensures Filter(q, Filter(p, s)) == Filter(r, s)
  {
    if s != [] {
      FilterFilter(p, q, r, s[1..]);
      FilterConcat(q, if p(s[0]) then [s[0]] else [], Filter(p, s[1..]));
      assert [s[0]][1..] == [];
    }
  }

  /** Taking one element out of a list, leaving the rest in order. */
  lemma {:induction false} MultisetRemove<A>(s: seq<A>, i: nat)
    requires i < |s|
    ensures multiset(s[..i] + s[i + 1..]) == multiset(s) - multiset{s[i]}
  {
    assert s == s[..i] + [s[i]] + s[i + 1..];
  }

  lemma {:induction false} SameMultisetMember<A>(s: seq<A>, t: seq<A>, x: A)
    requires multiset(s) == multiset(t)
    ensures x in s <==> x in t
  {
    assert x in s <==> x in multiset(s);
    assert x in t <==> x in multiset(t);
  }

  lemma {:induction false} SameMultisetLength<A>(s: seq<A>, t: seq<A>)
    requires multiset(s) == multiset(t)
    ensures |s| == |t|
  {
    assert |multiset(s)| == |s|;
    assert |multiset(t)| == |t|;
  }

  /** Reordering the input of a flat map only reorders its output. */
  lemma {:induction false} FlatMapPermutation<A, B>(f: A -> seq<B>, s: seq<A>, t: seq<A>)
    requires multiset(s) == multiset(t)
    ensures multiset(FlatMap(f, s)) == multiset(FlatMap(f, t))
    decreases |s|
  {
    SameMultisetLength(s, t);
    if s != [] {
      SameMultisetMember(s, t, s[0]);
      var i :| 0 <= i < |t| && t[i] == s[0];
      MultisetRemove(t, i);
      assert s == [s[0]] + s[1..];
      FlatMapPermutation(f, s[1..], t[..i] + t[i + 1..]);
      FlatMapConcat(f, t[..i], t[i + 1..]);
      FlatMapAt(f, t, i);
    }
  }

  lemma {:induction false} MapAsFlatMap<A, B>(f: A -> B, g: A -> seq<B>, s: seq<A>)
    requires forall x :: x in s ==> g(x) == [f(x)]
    ensures Map(f, s) == FlatMap(g, s)
  {
    if s != [] {
      MapAsFlatMap(f, g, s[1..]);
      assert Map(f, s) == [f(s[0])] + Map(f, s[1..]);
    }
  }

  lemma {:induction false} FilterAsFlatMap<A>(p: A -> bool, g: A -> seq<A>, s: seq<A>)
    requires forall x :: x in s ==> g(x) == if p(x) then [x] else []
    ensures Filter(p, s) == FlatMap(g, s)
  {
    if s != [] {
      FilterAsFlatMap(p, g, s[1..]);
    }
  }

  lemma {:induction false} MapPermutation<A, B>(f: A -> B, s: seq<A>, t: seq<A>)
    requires multiset(s) == multiset(t)
    ensures multiset(Map(f, s)) == multiset(Map(f, t))
  {
    var g := (x: A) => [f(x)];
    MapAsFlatMap(f, g, s);
    MapAsFlatMap(f, g, t);
    FlatMapPermutation(g, s, t);
  }

  lemma {:induction false} FilterPermutation<A>(p: A -> bool, s: seq<A>, t: seq<A>)
    requires multiset(s) == multiset(t)
    ensures multiset(Filter(p, s)) == multiset(Filter(p, t))
  {
    var g := (x: A) => if p(x) then [x] else [];
    FilterAsFlatMap(p, g, s);
    FilterAsFlatMap(p, g, t);
    FlatMapPermutation(g, s, t);
  }

  /** A list without repetitions counts each of its elements once. */
  lemma {:induction false} NoDupCount<A>(s: seq<A>, x: A)
    requires NoDup(s)
    ensures multiset(s)[x] == if x in s then 1 else 0
  {
    if s != [] {
      NoDupCount(s[1..], x);
      assert s == [s[0]] + s[1..];
    }
  }

  /** Two lists without repetitions and with the same elements are reorderings of each other. */
  lemma {:induction false} NoDupSameElements<A(!new)>(s: seq<A>, t: seq<A>)
    requires NoDup(s) && NoDup(t)
    requires forall x :: x in s <==> x in t
    ensures multiset(s) == multiset(t)
  {
    forall x ensures multiset(s)[x] == multiset(t)[x] {
      NoDupCount(s, x);
      NoDupCount(t, x);
    }
  }

  lemma {:induction false} CountTwice<A>(s: seq<A>, i: nat, j: nat)
    requires i < j < |s| && s[i] == s[j]
    ensures multiset(s)[s[i]] >= 2
  {
    assert s == s[..j] + [s[j]] + s[j + 1..];
    assert s[..j][i] == s[i];
    assert s[i] in s[..j];
  }

  lemma {:induction false} NoDupPermutation<A>(s: seq<A>, t: seq<A>)
    requires multiset(s) == multiset(t) && NoDup(s)
    ensures NoDup(t)
  {
    forall i, j | 0 <= i < j < |t| ensures t[i] != t[j] {
      if t[i] == t[j] {
        CountTwice(t, i, j);
        NoDupCount(s, t[i]);
      }
    }
  }

  /** A flat map has no repetitions when its parts have none and do not overlap. */
  lemma {:induction false} FlatMapNoDup<A, B>(f: A -> seq<B>, s: seq<A>)
    requires forall i :: 0 <= i < |s| ==> NoDup(f(s[i]))
    requires forall i, j, y :: 0 <= i < j < |s| && y in f(s[i]) ==> y !in f(s[j])
    ensures NoDup(FlatMap(f, s))
  {
    if s != [] {
      FlatMapNoDup(f, s[1..]);
      var head, tail := f(s[0]), FlatMap(f, s[1..]);
      forall y | y in tail ensures y !in head {
        FlatMapMember(f, s[1..], y);
        var k :| 0 <= k < |s[1..]| && y in f(s[1..][k]);
        assert s[1..][k] == s[k + 1];
      }
      forall i, j | 0 <= i < j < |head + tail| ensures (head + tail)[i] != (head + tail)[j] {
        if i >= |head| {
          assert tail[i - |head|] != tail[j - |head|];
        } else if j >= |head| {
          assert head[i] in head && tail[j - |head|] in tail;
        }
      }
    }
  }

  lemma {:induction false} MapConcat<A, B>(f: A -> B, s: seq<A>, t: seq<A>)
    ensures Map(f, s + t) == Map(f, s) + Map(f, t)
  {
  }

  lemma {:induction false} SubsetLength<A(!new)>(s: seq<A>, t: seq<A>)
    requires NoDup(s)
    requires forall x :: x in s ==> x in t
    ensures |s| <= |t|
    ensures |s| == |t| ==> forall x :: x in t ==> x in s
    decreases |t|
  {
    if s != [] {
      assert s[0] in t;
      var i :| 0 <= i < |t| && t[i] == s[0];
      var rest := t[..i] + t[i + 1..];
      forall x | x in s[1..] ensures x in rest {
        var j :| 0 <= j < |s[1..]| && s[1..][j] == x;
        assert s[j + 1] != s[0] && s[j + 1] in s;
        var k :| 0 <= k < |t| && t[k] == x;
        assert rest[if k < i then k else k - 1] == x;
      }
      SubsetLength(s[1..], rest);
      forall x | x in t && |s| == |t| ensures x in s {
        if x != s[0] {
          var k :| 0 <= k < |t| && t[k] == x;
          assert rest[if k < i then k else k - 1] == x;
          assert x in s[1..];
        }
      }
    }
  }

  lemma {:induction false} SnocNoDup<A>(s: seq<A>, x: A)
    ensures NoDup(s + [x]) <==> NoDup(s) && x !in s
  {
    var t := s + [x];
    if NoDup(t) {
      forall i, j | 0 <= i < j < |s| ensures s[i] != s[j] {
        assert t[i] != t[j];
      }
      forall i | 0 <= i < |s| ensures s[i] != x {
        assert t[i] != t[|s|];
      }
    }
  }

  predicate Increasing(at: seq<nat>) {
    forall i, j :: 0 <= i < j < |at| ==> at[i] < at[j]
  }

  /** `r` lists the elements of `s` that satisfy `p`, each position once and in order; `at` are the positions. */
  ghost predicate Selected<A>(p: A -> bool, s: seq<A>, r: seq<A>, at: seq<nat>) {
    && |at| == |r| && Increasing(at)
    && (forall i :: 0 <= i < |at| ==> at[i] < |s| && s[at[i]] == r[i])
    && (forall k: nat :: k < |s| ==> (k in at <==> p(s[k])))
  }

  lemma {:induction false} SelectedSnoc<A>(p: A -> bool, s: seq<A>, r: seq<A>, at: seq<nat>, x: A)
    requires Selected(p, s, r, at)
    ensures p(x) ==> Selected(p, s + [x], r + [x], at + [|s|])
    ensures !p(x) ==> Selected(p, s + [x], r, at)
  {
    var t := s + [x];
    forall k: nat | k < |s| ensures t[k] == s[k] {
    }
    assert |s| !in at;
    if p(x) {
      var next := at + [|s|];
      forall k: nat | k < |t| ensures k in next <==> p(t[k]) {
        assert k in next <==> k in at || k == |s|;
      }
    }
  }

  lemma {:induction false} FilterPositions<A>(p: A -> bool, s: seq<A>) returns (at: seq<nat>)
    ensures Selected(p, s, Filter(p, s), at)
  {
    if s == [] {
      at := [];
    } else {
      var pre, last := s[..|s| - 1], s[|s| - 1];
      at := FilterPositions(p, pre);
      assert s == pre + [last] && s[..|s| - 1 + 1] == s;
      FilterStep(p, s, |s| - 1);
      SelectedSnoc(p, pre, Filter(p, pre), at, last);
      if p(last) {
        at := at + [|pre|];
      }
    }
  }

  lemma {:induction false} FilterPrepend<A>(p: A -> bool, x: A, s: seq<A>)
    ensures Filter(p, [x] + s) == (if p(x) then [x] else []) + Filter(p, s)
  {
    assert ([x] + s)[1..] == s;
  }

  /** An element that is not kept may move past its neighbour. */
  lemma {:induction false} FilterSwap<A>(p: A -> bool, out: A, other: A, s: seq<A>)
    requires !p(out)
    ensures Filter(p, [out] + ([other] + s)) == Filter(p, [other] + ([out] + s))
  {
    FilterPrepend(p, out, s);
    assert Filter(p, [out] + s) == Filter(p, s);
    FilterPrepend(p, other, s);
    FilterPrepend(p, other, [out] + s);
    FilterPrepend(p, out, [other] + s);
  }

  /** Parts one after the other. */
  function Flatten<A>(parts: seq<seq<A>>): seq<A> {
    if parts == [] then [] else parts[0] + Flatten(parts[1..])
  }

  lemma {:induction false} FlattenMap<A, B>(f: A -> seq<B>, s: seq<A>)
    ensures Flatten(Map(f, s)) == FlatMap(f, s)
  {
    if s != [] {
      FlattenMap(f, s[1..]);
      assert Map(f, s)[1..] == Map(f, s[1..]);
    }
  }

  lemma {:induction false} FilterAgree<A>(q: A -> bool, r: A -> bool, s: seq<A>)
    requires forall x :: x in s ==> (q(x) <==> r(x))
    ensures Filter(q, s) == Filter(r, s)
  {
    if s != [] {
      FilterAgree(q, r, s[1..]);
    }
  }

  lemma {:induction false} FilterStep<A>(p: A -> bool, s: seq<A>, i: nat)
    requires i < |s|
    ensures Filter(p, s[..i + 1]) == Filter(p, s[..i]) + if p(s[i]) then [s[i]] else []
  {
    assert s[..i + 1] == s[..i] + [s[i]];
    FilterConcat(p, s[..i], [s[i]]);
    assert [s[i]][1..] == [];
  }

  lemma {:induction false} MulSucc(n: nat, c: nat)
    ensures (n + 1) * c == n * c + c
  {
  }

  lemma {:induction false} CountConcat<A>(s: seq<A>, t: seq<A>, x: A)
    ensures multiset(s + t)[x] == multiset(s)[x] + multiset(t)[x]
  {
  }

  lemma {:induction false} FlatMapCount<A, B>(f: A -> seq<B>, s: seq<A>, y: B)
    requires s != []
    ensures multiset(FlatMap(f, s))[y] == multiset(f(s[0]))[y] + multiset(FlatMap(f, s[1..]))[y]
  {
    CountConcat(f(s[0]), FlatMap(f, s[1..]), y);
  }

  lemma {:induction false} FlatMapLength<A, B>(f: A -> seq<B>, s: seq<A>)
    requires s != []
    ensures |FlatMap(f, s)| == |f(s[0])| + |FlatMap(f, s[1..])|
  {
  }

  lemma {:induction false} CountCons<A>(s: seq<A>, x: A)
    requires s != []
    ensures multiset(s)[x] == multiset(s[1..])[x] + if s[0] == x then 1 else 0
  {
    assert s == [s[0]] + s[1..];
  }

  /** If every part is at least as long on the left, equal totals force equal parts. */
  lemma {:induction false} LengthSqueeze<A, B>(f: A -> seq<B>, g: A -> seq<B>, s: seq<A>)
    requires forall x :: x in s ==> |f(x)| >= |g(x)|
    ensures |FlatMap(f, s)| >= |FlatMap(g, s)|
    ensures |FlatMap(f, s)| == |FlatMap(g, s)| ==> forall x :: x in s ==> |f(x)| == |g(x)|
  {
    if s != [] {
      LengthSqueeze(f, g, s[1..]);
      assert s == [s[0]] + s[1..];
    }
  }

  lemma {:induction false} TailMultiset<A>(s: seq<A>)
    requires s != []
    ensures multiset(s[1..]) == multiset(s) - multiset{s[0]}
  {
    assert s == [s[0]] + s[1..];
  }

  lemma {:induction false} FlatMapContains<A, B>(f: A -> seq<B>, s: seq<A>, x: A, y: B)
    requires x in s && y in f(x)
    ensures y in FlatMap(f, s)
  {
    FlatMapMember(f, s, y);
  }

  lemma {:induction false} FilterCount<A>(p: A -> bool, s: seq<A>, x: A)
    ensures multiset(Filter(p, s))[x] == if p(x) then multiset(s)[x] else 0
  {
    if s != [] {
      FilterCount(p, s[1..], x);
      CountCons(s, x);
      CountConcat(if p(s[0]) then [s[0]] else [], Filter(p, s[1..]), x);
    }
  }

  /** When `f` is `g` followed by the same list each time, that list is repeated once per element. */
  lemma {:induction false} FlatMapRepeat<A, B>(f: A -> seq<B>, g: A -> seq<B>, tail: seq<B>, s: seq<A>, y: B)
    requires forall x :: x in s ==> f(x) == g(x) + tail
    ensures multiset(FlatMap(f, s))[y] == multiset(FlatMap(g, s))[y] + |s| * multiset(tail)[y]
  {
    if s != [] {
      FlatMapRepeat(f, g, tail, s[1..], y);
      FlatMapCount(f, s, y);
      FlatMapCount(g, s, y);
      CountConcat(g(s[0]), tail, y);
      MulSucc(|s[1..]|, multiset(tail)[y]);
    }
  }

  /** Filtering a flat map by `p` keeps whole parts when `p` depends only on the part. */
  lemma {:induction false} FilterFlatMap<A, B>(p: B -> bool, f: A -> seq<B>, q: A -> bool, s: seq<A>)
    requires forall x, y :: x in s && y in f(x) ==> (p(y) <==> q(x))
    requires forall x :: x in s && q(x) ==> f(x) != []
    ensures Filter(p, FlatMap(f, s)) == FlatMap(f, Filter(q, s))
  {
    if s != [] {
      FilterFlatMap(p, f, q, s[1..]);
      FilterConcat(p, f(s[0]), FlatMap(f, s[1..]));
      if q(s[0]) {
        FilterAll(p, f(s[0]));
        assert Filter(q, s)[1..] == Filter(q, s[1..]);
      } else {
        FilterNone(p, f(s[0]));
        assert Filter(q, s) == Filter(q, s[1..]);
      }
    }
  }

  lemma {:induction false} FilterLength<A>(p: A -> bool, s: seq<A>)
    requires s != []
    ensures |Filter(p, s)| == |Filter(p, s[1..])| + if p(s[0]) then 1 else 0
  {
  }

  lemma {:induction false} KeysNoDup<A, K>(key: A -> K, s: seq<A>)
    requires NoDup(Map(key, s))
    ensures NoDup(s)
  {
    forall i, j | 0 <= i < j < |s| ensures s[i] != s[j] {
      assert Map(key, s)[i] != Map(key, s)[j];
    }
  }

  lemma {:induction false} FilterAt<A>(p: A -> bool, s: seq<A>, i: nat)
    requires i < |s|
    ensures Filter(p, s) == Filter(p, s[..i]) + (if p(s[i]) then [s[i]] else []) + Filter(p, s[i + 1..])
  {
    FilterStep(p, s, i);
    FilterConcat(p, s[..i + 1], s[i + 1..]);
    assert s == s[..i + 1] + s[i + 1..];
  }

  lemma {:induction false} FilterEmpty<A>(p: A -> bool, s: seq<A>)
    ensures Filter(p, s) == [] <==> forall j :: 0 <= j < |s| ==> !p(s[j])
  {
    if forall j :: 0 <= j < |s| ==> !p(s[j]) {
      FilterNone(p, s);
    } else {
      var j :| 0 <= j < |s| && p(s[j]);
      assert s[j] in Filter(p, s);
    }
  }

  /** Only position `i` may satisfy `p` exactly when filtering leaves at most that element. */
  lemma {:induction false} FilterSole<A>(p: A -> bool, s: seq<A>, i: nat)
    requires i < |s|
    ensures (forall j :: 0 <= j < |s| && j != i ==> !p(s[j])) <==>
      Filter(p, s) == if p(s[i]) then [s[i]] else []
  {
    var lo, hi := s[..i], s[i + 1..];
    FilterAt(p, s, i);
    FilterEmpty(p, lo);
    FilterEmpty(p, hi);
    if forall j :: 0 <= j < |s| && j != i ==> !p(s[j]) {
      assert Filter(p, lo) == [] && Filter(p, hi) == [];
    } else {
      var j :| 0 <= j < |s| && j != i && p(s[j]);
      assert if j < i then p(lo[j]) else p(hi[j - i - 1]);
    }
  }

  /** Distinct keys: one key selects one element. */
  lemma {:induction false} SoleKey<A, K>(key: A -> K, p: A -> bool, s: seq<A>, x: A)
    requires NoDup(Map(key, s)) && x in s
    requires forall y :: y in s ==> (p(y) <==> key(y) == key(x))
    ensures Filter(p, s) == [x]
  {
    var i :| 0 <= i < |s| && s[i] == x;
    forall j | 0 <= j < |s| && j != i ensures !p(s[j]) {
      assert Map(key, s)[i] == key(x) && Map(key, s)[j] == key(s[j]);
    }
    FilterSole(p, s, i);
  }

  /** A list whose elements are all the same has one order. */
  lemma {:induction false} ConstantPermutation<A>(s: seq<A>, t: seq<A>)
    requires multiset(s) == multiset(t)
    requires forall x, y :: x in s && y in s ==> x == y
    ensures s == t
  {
    SameMultisetLength(s, t);
    forall i | 0 <= i < |s| ensures s[i] == t[i] {
      SameMultisetMember(s, t, t[i]);
      assert s[i] in s;
    }
  }

  /** A list without repetitions is contained in every list that has its elements. */
  lemma {:induction false} SubsetMultiset<A(!new)>(s: seq<A>, t: seq<A>)
    requires NoDup(s) && forall x :: x in s ==> x in t
    ensures multiset(s) <= multiset(t)
  {
    forall x ensures multiset(s)[x] <= multiset(t)[x] {
      NoDupCount(s, x);
    }
  }

  lemma {:induction false} FlatMapSubset<A, B>(f: A -> seq<B>, s: seq<A>, t: seq<A>)
    requires multiset(s) <= multiset(t)
    ensures multiset(FlatMap(f, s)) <= multiset(FlatMap(f, t))
  {
    if s != [] {
      assert s[0] in multiset(t);
      var i :| 0 <= i < |t| && t[i] == s[0];
      var rest := t[..i] + t[i + 1..];
      MultisetRemove(t, i);
      TailMultiset(s);
      FlatMapSubset(f, s[1..], rest);
      FlatMapAt(f, t, i);
      FlatMapConcat(f, t[..i], t[i + 1..]);
    }
  }
}
