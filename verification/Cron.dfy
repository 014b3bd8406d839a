/**
 * The cron block filter: a cursor on the schedule's occurrences whose `next` property advances on every read.
 * Timestamps and occurrences are in one integer unit.
 */
module Cron {
  import opened Seqs
  import opened NearTypes
  import opened Filters

  /** The occurrences of a cron expression in order; those before the reference time have negative positions. */
  ghost predicate Schedule(occ: int -> int) {
    forall i, j :: i < j ==> occ(i) < occ(j)
  }

  /** A seeker stands just before occurrence `pos + 1`. */
  class Seeker {
    const occ: int -> int
    var pos: int

    constructor (occ: int -> int)
      ensures this.occ == occ && pos == -1
    {
      this.occ, this.pos := occ, -1;
    }

    method Next() returns (t: int)
      modifies this
      ensures pos == old(pos) + 1 && t == occ(pos)
    {
      pos := pos + 1;
      t := occ(pos);
    }

    method Prev() returns (t: int)
      modifies this
      ensures pos == old(pos) - 1 && t == occ(pos)
    {
      pos := pos - 1;
      t := occ(pos);
    }
  }

  /** The object attached to a filter with a timestamp; `Next` is its getter. */
  class CronSchedule {
    const schedule: Seeker

    constructor (schedule: Seeker)
      ensures this.schedule == schedule
    {
      this.schedule := schedule;
    }

    method Next() returns (t: int)
      modifies schedule
      ensures schedule.pos == old(schedule.pos) + 1 && t == schedule.occ(schedule.pos)
    {
      t := schedule.Next();
    }
  }

  /** A block filter object. `cronSchedule` is null until the project service attaches one. */
  class BlockFilter {
    const modulo: Option<int>
    const timestamp: string
    var cronSchedule: CronSchedule?

    constructor (modulo: Option<int>, timestamp: string)
      ensures this.modulo == modulo && this.timestamp == timestamp && cronSchedule == null
    {
      this.modulo, this.timestamp := modulo, timestamp;
      this.cronSchedule := null;
    }
  }

  datatype FilterError = NoCronSchedule | InvalidCron(text: string) | ReferenceUnavailable(height: int)

  /** The occurrences of a cron expression, counted from a reference time; None for an invalid expression. */
  type Parser = string -> Option<int -> int -> int>

  /** `f` has its own schedule, standing before the first occurrence of its expression from the reference time. */
  ghost predicate Scheduled(f: BlockFilter, parse: Parser, reference: int)
    reads f, f.cronSchedule, if f.cronSchedule == null then null else f.cronSchedule.schedule
  {
    && f.cronSchedule != null && parse(f.timestamp).Some?
    && f.cronSchedule.schedule.pos == -1 && f.cronSchedule.schedule.occ == parse(f.timestamp).value(reference)
  }

  /**
   * `generateTimestampReferenceForBlockFilters` for the block filters of a runtime data source: each filter with
   * a timestamp gets its own schedule in place, counted from the time of the source's start block. `timestampAt`
   * is the node's answer, None when the block cannot be fetched. (The source may ask for the block once per
   * filter; the answers are the same.)
   */
  method GenerateTimestampReferences(
    startBlock: Option<int>, filters: seq<BlockFilter>, timestampAt: int -> Option<int>, parse: Parser)
    returns (r: Result<bool, FilterError>)
    modifies filters
    ensures r.Ok? <==> forall f :: f in filters && f.timestamp != "" ==>
      timestampAt(startBlock.GetOr(1)).Some? && parse(f.timestamp).Some?
    ensures r.Err? && r.error.ReferenceUnavailable? <==>
      timestampAt(startBlock.GetOr(1)).None? && exists f :: f in filters && f.timestamp != ""
    ensures r.Err? && !r.error.ReferenceUnavailable? ==>
      r.error.InvalidCron? && parse(r.error.text).None? && exists f :: f in filters && f.timestamp == r.error.text
    ensures forall f :: f in filters && f.timestamp == "" ==> f.cronSchedule == old(f.cronSchedule)
    ensures r.Ok? ==> forall f :: f in filters && f.timestamp != "" ==>
      Scheduled(f, parse, timestampAt(startBlock.GetOr(1)).value)
      && fresh(f.cronSchedule) && fresh(f.cronSchedule.schedule)
  {
    var start := startBlock.GetOr(1);
    var reference: Option<int> := None;
    for i := 0 to |filters|
      invariant reference == None || reference == timestampAt(start)
      invariant forall k :: 0 <= k < i && filters[k].timestamp != "" ==> reference.Some?
      invariant forall k :: 0 <= k < i && filters[k].timestamp != "" ==>
        Scheduled(filters[k], parse, reference.value)
        && fresh(filters[k].cronSchedule) && fresh(filters[k].cronSchedule.schedule)
      invariant forall f :: f in filters && f.timestamp == "" ==> f.cronSchedule == old(f.cronSchedule)
    {
      var filter := filters[i];
      if filter.timestamp != "" {
        if reference.None? {
          reference := timestampAt(start);
          if reference.None? {
            return Err(ReferenceUnavailable(start));
          }
        }
        var schedules := parse(filter.timestamp);
        if schedules.None? {
          return Err(InvalidCron(filter.timestamp));
        }
        var schedule := new Seeker(schedules.value(reference.value));
        filter.cronSchedule := new CronSchedule(schedule);
      }
    }
    return Ok(true);
  }

  /**
   * `filterBlockTimestamp`: accepts when the timestamp is past the next occurrence. The getter advances the
   * seeker on every read, yet the check moves it by exactly one occurrence on acceptance and not at all on
   * rejection.
   */
  method FilterBlockTimestamp(timestamp: int, cronSchedule: CronSchedule) returns (r: bool)
    modifies cronSchedule.schedule
    ensures r <==> timestamp > cronSchedule.schedule.occ(old(cronSchedule.schedule.pos) + 1)
    ensures cronSchedule.schedule.pos == old(cronSchedule.schedule.pos) + if r then 1 else 0
  {
    var next := cronSchedule.Next();
    if timestamp > next {
      var _ := cronSchedule.Next();  // read again for the log message
      var _ := cronSchedule.schedule.Prev();
      return true;
    } else {
      var _ := cronSchedule.schedule.Prev();
      return false;
    }
  }

  /** `filterBlock`; a filter with a timestamp but no schedule makes the source throw. */
  method FilterBlock(header: Header, filter: BlockFilter?) returns (r: Result<bool, FilterError>)
    modifies if filter == null || filter.cronSchedule == null then {} else {filter.cronSchedule.schedule}
    ensures filter == null ==> r == Ok(true)
    ensures filter != null && !PassesModulo(header.height, filter.modulo) ==> r == Ok(false)
    ensures filter != null && PassesModulo(header.height, filter.modulo) && filter.timestamp == "" ==> r == Ok(true)
    ensures r.Err? <==> filter != null && PassesModulo(header.height, filter.modulo)
                        && filter.timestamp != "" && filter.cronSchedule == null
    ensures filter != null && filter.cronSchedule != null ==>
      var seeker := filter.cronSchedule.schedule;
      if PassesModulo(header.height, filter.modulo) && filter.timestamp != "" then
        && r == Ok(header.timestamp > seeker.occ(old(seeker.pos) + 1))
        && seeker.pos == old(seeker.pos) + if r.value then 1 else 0
      else seeker.pos == old(seeker.pos)
  {
    if filter == null {
      return Ok(true);
    }
    FilterBlockModuloExact(header.height, filter.modulo);
    if !FilterBlockModulo(header.height, filter.modulo) {
      return Ok(false);
    }
    if filter.timestamp != "" {
      if filter.cronSchedule == null {
        return Err(NoCronSchedule);
      }
      var passed := FilterBlockTimestamp(header.timestamp, filter.cronSchedule);
      if !passed {
        return Ok(false);
      }
    }
    return Ok(true);
  }

  // Whole runs.

  /** Where the seeker stands after checking `ts` from `pos`. */
  function Cursor(occ: int -> int, pos: int, ts: seq<int>): int {
    if ts == [] then pos
    else
      var p := Cursor(occ, pos, ts[..|ts| - 1]);
      if ts[|ts| - 1] > occ(p + 1) then p + 1 else p
  }

  /** Whether check number `i` of a run accepts. */
  predicate AcceptedAt(occ: int -> int, pos: int, ts: seq<int>, i: nat)
    requires i < |ts|
  {
    ts[i] > occ(Cursor(occ, pos, ts[..i]) + 1)
  }

  /** The number of accepted checks of a run. */
  function AcceptedCount(occ: int -> int, pos: int, ts: seq<int>): nat {
    if ts == [] then 0
    else AcceptedCount(occ, pos, ts[..|ts| - 1]) + if AcceptedAt(occ, pos, ts, |ts| - 1) then 1 else 0
  }

  /** Over any run the seeker has moved by one occurrence per accepted check. */
  lemma {:induction false} CursorCounts(occ: int -> int, pos: int, ts: seq<int>)
    ensures Cursor(occ, pos, ts) == pos + AcceptedCount(occ, pos, ts)
  {
    if ts != [] {
      CursorCounts(occ, pos, ts[..|ts| - 1]);
    }
  }

  lemma {:induction false} CursorMonotone(occ: int -> int, pos: int, ts: seq<int>, i: nat)
    requires i <= |ts|
    ensures Cursor(occ, pos, ts[..i]) <= Cursor(occ, pos, ts)
    decreases |ts| - i
  {
    if i == |ts| {
      assert ts[..i] == ts;
    } else {
      CursorMonotone(occ, pos, ts, i + 1);
      assert ts[..i + 1][..i] == ts[..i];
    }
  }

  /** No occurrence is consumed twice: two accepted checks consume different, increasing occurrences. */
  lemma {:induction false} ConsumedOnce(occ: int -> int, pos: int, ts: seq<int>, i: nat, j: nat)
    requires i < j < |ts| && AcceptedAt(occ, pos, ts, i)
    ensures Cursor(occ, pos, ts[..i]) + 1 < Cursor(occ, pos, ts[..j]) + 1
  {
    CursorMonotone(occ, pos, ts[..j], i + 1);
    assert ts[..j][..i + 1] == ts[..i + 1];
    assert ts[..i + 1][..i] == ts[..i];
  }

  /** C(t): occurrences from position `first` on that are strictly before `t`. */
  ghost function OccurrencesBefore(occ: int -> int, first: int, t: int): nat
    requires Schedule(occ)
    decreases t - occ(first)
  {
    if occ(first) < t then
      assert occ(first) < occ(first + 1);
      1 + OccurrencesBefore(occ, first + 1, t)
    else 0
  }

  /** The count is the boundary position: exactly the occurrences below it are before `t`. */
  lemma {:induction false} BoundaryExact(occ: int -> int, first: int, t: int)
    requires Schedule(occ)
    ensures forall k :: first <= k ==> (occ(k) < t <==> k < first + OccurrencesBefore(occ, first, t))
    decreases t - occ(first)
  {
    if occ(first) < t {
      assert occ(first) < occ(first + 1);
      BoundaryExact(occ, first + 1, t);
    }
  }

  predicate NonDecreasing(ts: seq<int>) {
    forall i, j :: 0 <= i < j < |ts| ==> ts[i] <= ts[j]
  }

  /** C(tj) + (n - j), for the check at position `j - 1`. */
  ghost function Bound(occ: int -> int, first: int, ts: seq<int>, j: nat): int
    requires Schedule(occ) && j < |ts|
  {
    OccurrencesBefore(occ, first, ts[j]) + (|ts| - (j + 1))
  }

  /** `m` is the least of n and of C(tj) + (n - j), for j = 1..n. */
  ghost predicate IsLeastBound(occ: int -> int, first: int, ts: seq<int>, m: nat)
    requires Schedule(occ)
  {
    && m <= |ts|
    && (forall j :: 0 <= j < |ts| ==> m <= Bound(occ, first, ts, j))
    && (m == |ts| || exists j :: 0 <= j < |ts| && m == Bound(occ, first, ts, j))
  }

  /** One more check: the old bounds grow by one and the new timestamp adds its own count. */
  lemma {:induction false} LeastBoundStep(occ: int -> int, first: int, pre: seq<int>, t: int, a: nat)
    requires Schedule(occ) && IsLeastBound(occ, first, pre, a) && a <= OccurrencesBefore(occ, first, t)
    ensures IsLeastBound(occ, first, pre + [t], if a < OccurrencesBefore(occ, first, t) then a + 1 else a)
  {
    var ts, c := pre + [t], OccurrencesBefore(occ, first, t);
    assert Bound(occ, first, ts, |pre|) == c;
    forall j | 0 <= j < |pre| ensures Bound(occ, first, ts, j) == Bound(occ, first, pre, j) + 1 {
    }
    if a < c && a < |pre| {
      var j :| 0 <= j < |pre| && a == Bound(occ, first, pre, j);
      assert a + 1 == Bound(occ, first, ts, j);
    }
  }

  lemma {:induction false} RunStep(occ: int -> int, pos: int, ts: seq<int>, t: int)
    ensures var hit := t > occ(Cursor(occ, pos, ts) + 1);
      && Cursor(occ, pos, ts + [t]) == Cursor(occ, pos, ts) + (if hit then 1 else 0)
      && AcceptedCount(occ, pos, ts + [t]) == AcceptedCount(occ, pos, ts) + (if hit then 1 else 0)
  {
    assert (ts + [t])[..|ts|] == ts;
  }

  /** One more check accepts exactly when an occurrence before its timestamp is left. */
  lemma {:induction false} CountStep(occ: int -> int, pos: int, ts: seq<int>, t: int)
    requires Schedule(occ)
    ensures var a := AcceptedCount(occ, pos, ts);
      AcceptedCount(occ, pos, ts + [t]) == if a < OccurrencesBefore(occ, pos + 1, t) then a + 1 else a
  {
    RunStep(occ, pos, ts, t);
    CursorCounts(occ, pos, ts);
    BoundaryExact(occ, pos + 1, t);
  }

  lemma {:induction false} BeforeMonotone(occ: int -> int, first: int, t: int, t': int)
    requires Schedule(occ) && t <= t'
    ensures OccurrencesBefore(occ, first, t) <= OccurrencesBefore(occ, first, t')
  {
    var c, c' := OccurrencesBefore(occ, first, t), OccurrencesBefore(occ, first, t');
    BoundaryExact(occ, first, t);
    BoundaryExact(occ, first, t');
    assert !(occ(first + c') < t);
  }

  /**
   * Cron run theorem: after n checks with non-decreasing timestamps the number of accepted blocks is the
   * minimum of n and of C(tj) + (n - j) over j = 1..n, and never exceeds the occurrences before the last one.
   */
  lemma {:induction false} RunTheorem(occ: int -> int, pos: int, ts: seq<int>)
    requires Schedule(occ) && NonDecreasing(ts)
    ensures IsLeastBound(occ, pos + 1, ts, AcceptedCount(occ, pos, ts))
    ensures ts != [] ==> AcceptedCount(occ, pos, ts) <= OccurrencesBefore(occ, pos + 1, ts[|ts| - 1])
  {
    if ts != [] {
      var pre, last := ts[..|ts| - 1], ts[|ts| - 1];
      var a, c := AcceptedCount(occ, pos, pre), OccurrencesBefore(occ, pos + 1, last);
      assert ts == pre + [last];
      RunTheorem(occ, pos, pre);
      CountStep(occ, pos, pre, last);
      if pre != [] {
        BeforeMonotone(occ, pos + 1, pre[|pre| - 1], last);
      }
      LeastBoundStep(occ, pos + 1, pre, last, a);
    }
  }

  // Runs of the block filter.

  /** The timestamps of the headers that reach the timestamp check. */
  function Checked(headers: seq<Header>, modulo: Option<int>): seq<int> {
    if headers == [] then []
    else
      var last := headers[|headers| - 1];
      Checked(headers[..|headers| - 1], modulo)
        + if FilterBlockModulo(last.height, modulo) then [last.timestamp] else []
  }

  lemma {:induction false} CheckedTake(headers: seq<Header>, i: nat, modulo: Option<int>)
    requires i < |headers|
    ensures PassesModulo(headers[i].height, modulo) ==>
      Checked(headers[..i + 1], modulo) == Checked(headers[..i], modulo) + [headers[i].timestamp]
    ensures !PassesModulo(headers[i].height, modulo) ==>
      Checked(headers[..i + 1], modulo) == Checked(headers[..i], modulo)
  {
    FilterBlockModuloExact(headers[i].height, modulo);
    assert headers[..i + 1][..i] == headers[..i];
  }

  function PassesFor(modulo: Option<int>): Header -> bool {
    (header: Header) => FilterBlockModulo(header.height, modulo)
  }

  function TimestampOf(header: Header): int { header.timestamp }

  lemma {:induction false} CheckedIsFilter(headers: seq<Header>, modulo: Option<int>)
    ensures Checked(headers, modulo) == Map(TimestampOf, Filter(PassesFor(modulo), headers))
  {
    if headers != [] {
      var n := |headers| - 1;
      CheckedIsFilter(headers[..n], modulo);
      FilterStep(PassesFor(modulo), headers, n);
      assert headers[..n + 1] == headers;
    }
  }

  /** The checked timestamps are those of the blocks at a multiple of the modulus, each once and in order. */
  lemma {:induction false} CheckedExact(headers: seq<Header>, modulo: Option<int>) returns (at: seq<nat>)
    ensures |at| == |Checked(headers, modulo)| && Increasing(at)
    ensures forall i :: 0 <= i < |at| ==>
      at[i] < |headers| && Checked(headers, modulo)[i] == headers[at[i]].timestamp
    ensures forall k: nat :: k < |headers| ==> (k in at <==> PassesModulo(headers[k].height, modulo))
  {
    CheckedIsFilter(headers, modulo);
    at := FilterPositions(PassesFor(modulo), headers);
    forall k: nat | k < |headers| ensures k in at <==> PassesModulo(headers[k].height, modulo) {
      FilterBlockModuloExact(headers[k].height, modulo);
    }
  }

  /** One more block of a run: it counts exactly when it passes the modulo test and then the timestamp check. */
  method FilterNext(header: Header, filter: BlockFilter, ghost first: int, ghost ts: seq<int>)
    returns (passed: bool, ghost ts': seq<int>)
    requires filter.timestamp != "" && filter.cronSchedule != null
    requires filter.cronSchedule.schedule.pos == Cursor(filter.cronSchedule.schedule.occ, first, ts)
    modifies filter.cronSchedule.schedule
    ensures ts' == if PassesModulo(header.height, filter.modulo) then ts + [header.timestamp] else ts
    ensures var seeker := filter.cronSchedule.schedule;
      && seeker.pos == Cursor(seeker.occ, first, ts')
      && AcceptedCount(seeker.occ, first, ts')
         == AcceptedCount(seeker.occ, first, ts) + if passed then 1 else 0
  {
    var r := FilterBlock(header, filter);
    passed := r == Ok(true);
    ts' := ts;
    if PassesModulo(header.height, filter.modulo) {
      RunStep(filter.cronSchedule.schedule.occ, first, ts, header.timestamp);
      ts' := ts + [header.timestamp];
    }
  }

  /**
   * `filterBlock` over a run of blocks with one timestamp filter: the seeker and the number of accepted blocks
   * are those of the timestamp checks of the blocks that pass the modulo test; the others never move it.
   */
  method FilterBlocks(headers: seq<Header>, filter: BlockFilter) returns (accepted: nat)
    requires filter.timestamp != "" && filter.cronSchedule != null
    modifies filter.cronSchedule.schedule
    ensures var seeker := filter.cronSchedule.schedule;
      var ts := Checked(headers, filter.modulo);
      && accepted == AcceptedCount(seeker.occ, old(seeker.pos), ts)
      && seeker.pos == Cursor(seeker.occ, old(seeker.pos), ts)
  {
    accepted := 0;
    var seeker := filter.cronSchedule.schedule;
    ghost var ts: seq<int> := [];
    for i := 0 to |headers|
      invariant ts == Checked(headers[..i], filter.modulo)
      invariant accepted == AcceptedCount(seeker.occ, old(seeker.pos), ts)
      invariant seeker.pos == Cursor(seeker.occ, old(seeker.pos), ts)
    {
      var passed;
      CheckedTake(headers, i, filter.modulo);
      passed, ts := FilterNext(headers[i], filter, old(seeker.pos), ts);
      if passed {
        accepted := accepted + 1;
      }
    }
    assert headers[..|headers|] == headers;
  }

  predicate InTimeOrder(headers: seq<Header>) {
    forall i, j :: 0 <= i < j < |headers| ==> headers[i].timestamp <= headers[j].timestamp
  }

  lemma {:induction false} CheckedInOrder(headers: seq<Header>, modulo: Option<int>)
    requires InTimeOrder(headers)
    ensures NonDecreasing(Checked(headers, modulo))
    ensures forall t :: t in Checked(headers, modulo) ==> headers != [] && t <= headers[|headers| - 1].timestamp
  {
    if headers != [] {
      CheckedInOrder(headers[..|headers| - 1], modulo);
      var before := Checked(headers[..|headers| - 1], modulo);
      assert forall i :: 0 <= i < |before| ==> before[i] in before;
    }
  }

  /** The run theorem for `filterBlock`: only the blocks that pass the modulo test count. */
  lemma {:induction false} BlockRunTheorem(occ: int -> int, pos: int, headers: seq<Header>, modulo: Option<int>)
    requires Schedule(occ) && InTimeOrder(headers)
    ensures var ts := Checked(headers, modulo);
      IsLeastBound(occ, pos + 1, ts, AcceptedCount(occ, pos, ts))
  {
    CheckedInOrder(headers, modulo);
    RunTheorem(occ, pos, Checked(headers, modulo));
  }
}
