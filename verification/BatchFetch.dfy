/** `fetchBlocksArray`, `fetchBlocksBatches` and the dispatcher's null-dropping fetch. */
module BatchFetch {
  import opened Seqs
  import opened NearTypes
  import opened Assembly
  import opened WrapBlock

  /** What asking the node for one height comes to; `NotFound` is the error message for a skipped height. */
  datatype Answer<+B, +E> = Found(block: B) | NotFound | Failed(error: E)

  /** The order in which `n` promises settle. */
  predicate IsOrder(order: seq<nat>, n: nat) {
    NoDup(order) && (forall k :: 0 <= k < |order| ==> order[k] < n) && (forall i: nat :: i < n ==> i in order)
  }

  /** `error` is the rejection that settles first. */
  ghost predicate FirstRejection<T, E>(settled: seq<Result<T, E>>, order: seq<nat>, error: E)
    requires IsOrder(order, |settled|)
  {
    exists k :: IsFirstRejection(settled, order, error, k)
  }

  ghost predicate IsFirstRejection<T, E>(settled: seq<Result<T, E>>, order: seq<nat>, error: E, k: nat)
    requires IsOrder(order, |settled|)
  {
    && k < |order| && settled[order[k]] == Err(error)
    && (forall l :: 0 <= l < k ==> settled[order[l]].Ok?)
  }

  /**
   * `Promise.all`: results by position whatever the settling order; the first rejection to settle rejects it.
   */
  method PromiseAll<T, E>(settled: seq<Result<T, E>>, order: seq<nat>) returns (r: Result<seq<T>, E>)
    requires IsOrder(order, |settled|)
    ensures r.Ok? <==> forall i :: 0 <= i < |settled| ==> settled[i].Ok?
    ensures r.Ok? ==> |r.value| == |settled| && forall i :: 0 <= i < |settled| ==> Ok(r.value[i]) == settled[i]
    ensures r.Err? ==> FirstRejection(settled, order, r.error)
  {
    var slots := new Option<T>[|settled|](_ => None);
    for k := 0 to |order|
      invariant forall l :: 0 <= l < k ==> settled[order[l]].Ok? && slots[order[l]] == Some(settled[order[l]].value)
    {
      var i := order[k];
      match settled[i] {
        case Err(error) =>
          assert IsFirstRejection(settled, order, error, k);
          return Err(error);
        case Ok(value) => slots[i] := Some(value);
      }
    }
    forall i | 0 <= i < |settled| ensures settled[i].Ok? && slots[i] == Some(settled[i].value) {
      assert i in order;
      var l :| 0 <= l < |order| && order[l] == i;
    }
    var values := seq(|settled|, i requires 0 <= i < |settled| && slots[i].Some? reads slots => slots[i].value);
    return Ok(values);
  }

  /** The catch of `fetchBlocksArray`: a skipped height is null, any other error is thrown on. */
  function Caught<B, E>(answer: Answer<B, E>): Result<Option<B>, E> {
    match answer
    case Found(block) => Ok(Some(block))
    case NotFound => Ok(None)
    case Failed(error) => Err(error)
  }

  function Answers<B, E>(chain: int -> Answer<B, E>, heights: seq<int>): (r: seq<Result<Option<B>, E>>)
    ensures |r| == |heights|
  {
    seq(|heights|, i requires 0 <= i < |heights| => Caught(chain(heights[i])))
  }

  /** `error` is the failure that settles first; a skipped height is none. */
  ghost predicate FirstFailure<B, E>(chain: int -> Answer<B, E>, heights: seq<int>, order: seq<nat>, error: E)
    requires IsOrder(order, |heights|)
  {
    exists k :: IsFirstFailure(chain, heights, order, error, k)
  }

  ghost predicate IsFirstFailure<B, E>(
    chain: int -> Answer<B, E>, heights: seq<int>, order: seq<nat>, error: E, k: nat)
    requires IsOrder(order, |heights|)
  {
    && k < |order| && chain(heights[order[k]]) == Failed(error)
    && (forall l :: 0 <= l < k ==> !chain(heights[order[l]]).Failed?)
  }

  lemma {:induction false} FailureIsRejection<B, E>(
    chain: int -> Answer<B, E>, heights: seq<int>, order: seq<nat>, error: E)
    requires IsOrder(order, |heights|) && FirstRejection(Answers(chain, heights), order, error)
    ensures FirstFailure(chain, heights, order, error)
  {
    var k :| IsFirstRejection(Answers(chain, heights), order, error, k);
    assert IsFirstFailure(chain, heights, order, error, k);
  }

  /** `fetchBlocksArray` */
  method FetchBlocksArray<B, E>(chain: int -> Answer<B, E>, heights: seq<int>, order: seq<nat>)
    returns (r: Result<seq<Option<B>>, E>)
    requires IsOrder(order, |heights|)
    ensures r.Err? <==> exists i :: 0 <= i < |heights| && chain(heights[i]).Failed?
    ensures r.Ok? ==> |r.value| == |heights| && forall i :: 0 <= i < |heights| ==>
      if chain(heights[i]).Found? then r.value[i] == Some(chain(heights[i]).block) else r.value[i] == None
    ensures r.Err? ==> FirstFailure(chain, heights, order, r.error)
  {
    var settled := Answers(chain, heights);
    r := PromiseAll(settled, order);
    if r.Ok? {
      forall i | 0 <= i < |heights|
        ensures if chain(heights[i]).Found? then r.value[i] == Some(chain(heights[i]).block) else r.value[i] == None
      {
        assert Ok(r.value[i]) == settled[i];
      }
    } else {
      FailureIsRejection(chain, heights, order, r.error);
    }
  }

  /** The chain as a partial function from height to block. */
  function Available<B, E>(chain: int -> Answer<B, E>): int -> Option<B> {
    h => if chain(h).Found? then Some(chain(h).block) else None
  }

  /** Each block the chain has is the block of the height it was asked for. */
  ghost predicate FoundAtHeight<B, E>(chain: int -> Answer<B, E>, heightOf: B -> int) {
    forall h :: chain(h).Found? ==> heightOf(chain(h).block) == h
  }

  /** A batch is aligned with its heights, so dropping its nulls keeps the available heights and their order. */
  lemma {:induction false} FetchedInOrder<B, E>(chain: int -> Answer<B, E>, heights: seq<int>, heightOf: B -> int)
    requires FoundAtHeight(chain, heightOf)
    ensures var kept := Map(heightOf, NonNull(Map(Available(chain), heights)));
      && (forall h :: h in kept <==> h in heights && chain(h).Found?)
      && (StrictlyIncreasing(heights) ==> StrictlyIncreasing(kept))
  {
    var fetched := Map(Available(chain), heights);
    forall h
      ensures h in Map(heightOf, NonNull(fetched)) <==> h in heights && chain(h).Found?
    {
      NonNullHeights(heights, fetched, heightOf, h);
    }
    if StrictlyIncreasing(heights) {
      NonNullIncreasing(heights, fetched, heightOf);
    }
  }

  /** The fetch closure of the dispatcher: a batch without its nulls. */
  method DispatcherFetch<B, E>(
    chain: int -> Answer<B, E>, heights: seq<int>, order: seq<nat>, ghost heightOf: B -> int)
    returns (r: Result<seq<B>, E>)
    requires IsOrder(order, |heights|)
    ensures r.Err? <==> exists i :: 0 <= i < |heights| && chain(heights[i]).Failed?
    ensures r.Err? ==> FirstFailure(chain, heights, order, r.error)
    ensures r.Ok? ==> r.value == NonNull(Map(Available(chain), heights))
    ensures r.Ok? && FoundAtHeight(chain, heightOf) ==> forall h ::
      h in Map(heightOf, r.value) <==> h in heights && chain(h).Found?
    ensures r.Ok? && FoundAtHeight(chain, heightOf) && StrictlyIncreasing(heights) ==>
      StrictlyIncreasing(Map(heightOf, r.value))
  {
    var blocks := FetchBlocksArray(chain, heights, order);
    if blocks.Err? {
      return Err(blocks.error);
    }
    assert blocks.value == Map(Available(chain), heights);
    if FoundAtHeight(chain, heightOf) {
      FetchedInOrder(chain, heights, heightOf);
    }
    return Ok(NonNull(blocks.value));
  }

  /** The arrays of the content are those of its block. */
  datatype BlockContent = BlockContent(
    block: NearBlock, transactions: seq<NearTransaction>, actions: seq<NearAction>,
    receipts: seq<NearTransactionReceipt>)

  /** Content of a block assembled from `b` under the event order `sched`. */
  ghost predicate IsContent(c: BlockContent, b: BlockResult, sched: seq<Event>)
    requires Valid(b, sched)
    reads c.block, c.actions, set r | r in c.receipts && r.action != null :: r.action
  {
    && c.transactions == c.block.transactions && c.actions == c.block.actions && c.receipts == c.block.receipts
    && c.block.header == b.header && c.block.Shows(Run(b, sched))
  }

  /** The continuation of `fetchBlocksBatches` for one fetched block. */
  method WrapFetched(blockResult: Option<BlockResult>, sched: seq<Event>) returns (r: Option<BlockContent>)
    requires blockResult.Some? ==> Valid(blockResult.value, sched)
    ensures r.Some? <==> blockResult.Some?
    ensures r.Some? ==> IsContent(r.value, blockResult.value, sched)
  {
    if blockResult.None? {
      return None;
    }
    var block := WrapBlock.WrapBlock(blockResult.value, sched);
    return Some(BlockContent(block, block.transactions, block.actions, block.receipts));
  }

  /**
   * `fetchBlocksBatches`: one result per requested height in request order, null exactly at the skipped
   * heights, otherwise the assembled block of that height, for every settling order of the two rounds of
   * promises and every event order inside each block.
   */
  method FetchBlocksBatches<E>(
    chain: int -> Answer<BlockResult, E>, heights: seq<int>,
    order: seq<nat>, wrapOrder: seq<nat>, schedules: seq<seq<Event>>)
    returns (r: Result<seq<Option<BlockContent>>, E>)
    requires IsOrder(order, |heights|) && IsOrder(wrapOrder, |heights|) && |schedules| == |heights|
    requires forall i :: 0 <= i < |heights| && chain(heights[i]).Found? ==>
      Valid(chain(heights[i]).block, schedules[i])
    ensures r.Err? <==> exists i :: 0 <= i < |heights| && chain(heights[i]).Failed?
    ensures r.Err? ==> FirstFailure(chain, heights, order, r.error)
    ensures r.Ok? ==> |r.value| == |heights|
    ensures r.Ok? ==> forall i :: 0 <= i < |heights| ==> (r.value[i].None? <==> chain(heights[i]).NotFound?)
    ensures r.Ok? ==> forall i :: 0 <= i < |heights| && r.value[i].Some? ==>
      IsContent(r.value[i].value, chain(heights[i]).block, schedules[i])
  {
    var blocks := FetchBlocksArray(chain, heights, order);
    if blocks.Err? {
      return Err(blocks.error);
    }
    var settled: seq<Result<Option<BlockContent>, E>> := [];
    for i := 0 to |heights|
      invariant |settled| == i
      invariant forall k :: 0 <= k < i ==> settled[k].Ok? && (settled[k].value.None? <==> chain(heights[k]).NotFound?)
      invariant forall k :: 0 <= k < i && settled[k].value.Some? ==>
        IsContent(settled[k].value.value, chain(heights[k]).block, schedules[k])
    {
      var content := WrapFetched(blocks.value[i], schedules[i]);
      settled := settled + [Ok(content)];
    }
    r := PromiseAll(settled, wrapOrder);
    assert forall i :: 0 <= i < |heights| ==> Ok(r.value[i]) == settled[i];
  }

  // The dispatcher drops nulls.

  /** `blocks.filter((block) => block !== null)` */
  function NonNull<T>(s: seq<Option<T>>): seq<T> {
    if s == [] then [] else (if s[0].Some? then [s[0].value] else []) + NonNull(s[1..])
  }

  lemma {:induction false} NonNullConcat<T>(s: seq<Option<T>>, x: Option<T>)
    ensures NonNull(s + [x]) == NonNull(s) + if x.Some? then [x.value] else []
  {
    if s == [] {
      assert s + [x] == [x] && [x][1..] == [];
    } else {
      NonNullConcat(s[1..], x);
      assert (s + [x])[1..] == s[1..] + [x];
    }
  }

  /** Dropping nulls keeps every other element, once per position and in order. */
  lemma {:induction false} NonNullPositions<T>(s: seq<Option<T>>) returns (at: seq<nat>)
    ensures |at| == |NonNull(s)| && Increasing(at)
    ensures forall i :: 0 <= i < |at| ==> at[i] < |s| && s[at[i]] == Some(NonNull(s)[i])
    ensures forall k: nat :: k < |s| ==> (k in at <==> s[k].Some?)
  {
    at := [];
    if s != [] {
      var pre, last := s[..|s| - 1], s[|s| - 1];
      at := NonNullPositions(pre);
      NonNullConcat(pre, last);
      assert s == pre + [last];
      assert |pre| !in at;
      if last.Some? {
        var next := at + [|pre|];
        forall k: nat | k < |s| ensures k in next <==> s[k].Some? {
          assert k in next <==> k in at || k == |pre|;
        }
        at := next;
      }
    }
  }

  predicate StrictlyIncreasing(s: seq<int>) {
    forall i, j :: 0 <= i < j < |s| ==> s[i] < s[j]
  }

  /** `fetched[i]` is null or a block whose own height is the requested one. */
  predicate Aligned<T>(heights: seq<int>, fetched: seq<Option<T>>, heightOf: T -> int) {
    && |fetched| == |heights|
    && forall i :: 0 <= i < |heights| && fetched[i].Some? ==> heightOf(fetched[i].value) == heights[i]
  }

  /** Dropping nulls drops nothing else. */
  lemma {:induction false} NonNullHeights<T>(heights: seq<int>, fetched: seq<Option<T>>, heightOf: T -> int, h: int)
    requires Aligned(heights, fetched, heightOf)
    ensures h in Map(heightOf, NonNull(fetched)) <==>
      exists i :: 0 <= i < |heights| && heights[i] == h && fetched[i].Some?
  {
    if heights != [] {
      var rest := NonNull(fetched[1..]);
      NonNullHeights(heights[1..], fetched[1..], heightOf, h);
      assert Map(heightOf, NonNull(fetched))
          == (if fetched[0].Some? then [heights[0]] else []) + Map(heightOf, rest);
      if i :| 0 <= i < |heights| && heights[i] == h && fetched[i].Some? {
        if i > 0 {
          assert heights[1..][i - 1] == h && fetched[1..][i - 1].Some?;
        }
      }
      if i :| 0 <= i < |heights[1..]| && heights[1..][i] == h && fetched[1..][i].Some? {
        assert heights[i + 1] == h && fetched[i + 1].Some?;
      }
    }
  }

  /** Dropping nulls keeps strictly increasing heights strictly increasing. */
  lemma {:induction false} NonNullIncreasing<T>(heights: seq<int>, fetched: seq<Option<T>>, heightOf: T -> int)
    requires Aligned(heights, fetched, heightOf) && StrictlyIncreasing(heights)
    ensures StrictlyIncreasing(Map(heightOf, NonNull(fetched)))
  {
    if heights != [] {
      var rest := Map(heightOf, NonNull(fetched[1..]));
      NonNullIncreasing(heights[1..], fetched[1..], heightOf);
      assert Map(heightOf, NonNull(fetched)) == (if fetched[0].Some? then [heights[0]] else []) + rest;
      forall j | 0 <= j < |rest| ensures heights[0] < rest[j] {
        assert rest[j] in rest;
        NonNullHeights(heights[1..], fetched[1..], heightOf, rest[j]);
        var i :| 0 <= i < |heights[1..]| && heights[1..][i] == rest[j] && fetched[1..][i].Some?;
        assert heights[i + 1] == rest[j];
      }
    }
  }
}
