/** How the pruner finds the height at which a time window ends, and what it caches about it. */
module PrunerWindow {
  import opened BlockRangeExt
  import opened RangeLists
  import opened BlockRangeSets
  import opened StoreModel

  type Time = int

  datatype BlockInfo = BlockInfo(height: u64, time: Time)

  /** Header times by height, for the whole chain. */
  type Chain = u64 -> Time

  ghost predicate Increasing(chain: Chain) {
    forall a: u64, b: u64 :: a < b ==> chain(a) < chain(b)
  }

  /** The stored headers, by height. */
  type Headers = map<u64, Time>

  ghost predicate Follows(headers: Headers, chain: Chain) {
    forall h :: h in headers ==> headers[h] == chain(h)
  }

  /** `r` is the greatest stored height older than the cutoff. */
  ghost predicate IsGreatestOlder(r: Option<u64>, stored: set<u64>, chain: Chain, cutoff: Time) {
    && (r.Some? ==> r.value in stored && chain(r.value) < cutoff)
    && (forall h :: h in stored && chain(h) < cutoff ==> r.Some? && h <= r.value)
  }

  /** `r` is the greatest stored height that is not newer than the cutoff. */
  ghost predicate IsGreatestNotNewer(r: Option<u64>, stored: set<u64>, chain: Chain, cutoff: Time) {
    && (r.Some? ==> r.value in stored && chain(r.value) <= cutoff)
    && (forall h :: h in stored && chain(h) <= cutoff ==> r.Some? && h <= r.value)
  }

  /**
   * When the fast path gives a definite answer: without a previous bound if everything is newer than
   * the cutoff, and otherwise if at most one stored block above the bound is not.
   */
  ghost predicate FastDecides(prev: Option<u64>, stored: set<u64>, chain: Chain, cutoff: Time) {
    if prev.None? then forall h :: h in stored ==> cutoff < chain(h)
    else forall a, b :: a in stored && b in stored && prev.value < a < b ==> cutoff < chain(b)
  }

  /** The end of the window: the fast path's answer if it gives one, binary search otherwise. */
  ghost predicate IsWindowEnd(prev: Option<u64>, r: Option<u64>, stored: set<u64>, chain: Chain, cutoff: Time) {
    if FastDecides(prev, stored, chain, cutoff) then IsGreatestNotNewer(r, stored, chain, cutoff)
    else IsGreatestOlder(r, stored, chain, cutoff)
  }

  /**
   * The cached search agrees with binary search if and only if the fast path gives no answer or no
   * stored header sits on the cutoff.
   */
  lemma SearchEqualsSlow(prev: Option<u64>, r: Option<u64>, slow: Option<u64>, stored: set<u64>, chain: Chain, cutoff: Time)
    requires Increasing(chain)
    requires IsWindowEnd(prev, r, stored, chain, cutoff) && IsGreatestOlder(slow, stored, chain, cutoff)
    ensures r == slow <==>
            !FastDecides(prev, stored, chain, cutoff) || forall h :: h in stored ==> chain(h) != cutoff
  {
    if FastDecides(prev, stored, chain, cutoff) {
      if h :| h in stored && chain(h) == cutoff {
        assert r.Some? && h <= r.value;
      }
    }
  }

  lemma NothingStored(chain: Chain, cutoff: Time)
    ensures FastDecides(None, {}, chain, cutoff) && IsGreatestNotNewer(None, {}, chain, cutoff)
  {}

  lemma TailDecides(stored: set<u64>, tail: u64, chain: Chain, cutoff: Time)
    requires Increasing(chain) && tail in stored && forall h :: h in stored ==> tail <= h
    ensures FastDecides(None, stored, chain, cutoff) <==> cutoff < chain(tail)
    ensures cutoff < chain(tail) ==> IsGreatestNotNewer(None, stored, chain, cutoff)
  {}

  lemma NewerAbove(stored: set<u64>, floor: u64, next: u64, chain: Chain, cutoff: Time)
    requires Increasing(chain) && cutoff < chain(next) && forall h :: h in stored && floor < h ==> next <= h
    ensures forall h :: h in stored && floor < h ==> cutoff < chain(h)
  {}

  /** No block above the previous bound has left the window. */
  lemma NoneMoreOutside(stored: set<u64>, prev: u64, bound: Option<u64>, chain: Chain, cutoff: Time)
    requires Increasing(chain) && chain(prev) <= cutoff && forall h :: h in stored && prev < h ==> cutoff < chain(h)
    requires bound.Some? ==> bound.value in stored && bound.value <= prev
    requires forall h :: h in stored && h <= prev ==> bound.Some? && h <= bound.value
    ensures FastDecides(Some(prev), stored, chain, cutoff) && IsGreatestNotNewer(bound, stored, chain, cutoff)
  {}

  /** The block right above the previous bound has left the window, and no other. */
  lemma OneMoreOutside(stored: set<u64>, prev: u64, right: u64, chain: Chain, cutoff: Time)
    requires right in stored && prev < right && forall h :: h in stored && prev < h ==> right <= h
    requires chain(right) <= cutoff && forall h :: h in stored && right < h ==> cutoff < chain(h)
    ensures FastDecides(Some(prev), stored, chain, cutoff) && IsGreatestNotNewer(Some(right), stored, chain, cutoff)
  {}

  lemma TwoMoreOutside(stored: set<u64>, prev: u64, right: u64, next: u64, chain: Chain, cutoff: Time)
    requires right in stored && next in stored && prev < right < next && chain(next) <= cutoff
    ensures !FastDecides(Some(prev), stored, chain, cutoff)
  {}

  /** With a header on the cutoff right above the previous bound the two searches give different answers. */
  method FastAndSlowDiffer()
    returns (fast: Result<Option<Option<u64>>, StoreError>, slow: Result<Option<u64>, StoreError>)
    ensures fast == Ok(Some(Some(2))) && slow == Ok(Some(1))
  {
    ghost var chain: Chain := h => h;
    var headers: Headers := map[1 := 1, 2 := 2];
    var stored := new BlockRanges();
    stored.ranges := [BlockRange(1, 2)];
    assert stored.Contents() == {1, 2} by {
      HeightsSingle(BlockRange(1, 2));
      assert BlockRange(1, 2).Span() == {1, 2};
    }
    hide Heights;
    var cache := new Cache();
    fast := cache.FindHeightAfterWindowFast(headers, stored, 2, Some(1), chain);
    var other := new Cache();
    var probes;
    slow, probes := other.FindHeightAfterWindowSlow(headers, stored, 2, chain);
  }

  /** Number of halvings until nothing is left. */
  function Depth(n: nat): nat {
    if n == 0 then 0 else 1 + Depth(n / 2)
  }

  function Pow2(k: nat): nat {
    if k == 0 then 1 else 2 * Pow2(k - 1)
  }

  /** `Depth(n)` is one more than the whole part of the binary logarithm. */
  lemma {:induction false} DepthIsLogarithm(n: nat)
    requires 0 < n
    ensures 0 < Depth(n) && Pow2(Depth(n) - 1) <= n < Pow2(Depth(n))
  {
    if n > 1 { DepthIsLogarithm(n / 2); }
  }

  lemma {:induction false} DepthMonotone(m: nat, n: nat)
    requires m <= n
    ensures Depth(m) <= Depth(n)
    decreases n
  {
    if m > 0 { DepthMonotone(m / 2, n / 2); }
  }

  /** `keep` holds the lowest of the `all` heights that lie above `floor`, if there is any. */
  ghost predicate KeepsNext(keep: set<u64>, floor: u64, all: set<u64>) {
    forall h :: h in all && floor < h ==> exists k :: k in keep && floor < k <= h
  }

  lemma KeepsNextMore(keep: set<u64>, more: set<u64>, floor: u64, all: set<u64>)
    requires KeepsNext(keep, floor, all) && keep <= more
    ensures KeepsNext(more, floor, all)
  {}

  class Cache {
    var updatedAt: Option<Time>
    var afterPruningWindow: Option<u64>
    var afterSamplingWindow: Option<u64>
    var blockInfo: map<u64, BlockInfo>
    var keepBlockInfo: set<u64>

    constructor ()
      ensures updatedAt == None && afterPruningWindow == None && afterSamplingWindow == None
      ensures blockInfo == map[] && keepBlockInfo == {}
    {
      updatedAt, afterPruningWindow, afterSamplingWindow := None, None, None;
      blockInfo, keepBlockInfo := map[], {};
    }

    /** What is cached about a block is what its header says, even after the header was pruned. */
    ghost predicate Truthful(chain: Chain)
      reads this
    {
      forall h :: h in blockInfo ==> blockInfo[h] == BlockInfo(h, chain(h))
    }

    /** Drops everything but the two bounds and the blocks next to them. */
    method GarbageCollect()
      modifies this`blockInfo
      ensures forall h :: h in blockInfo <==>
                h in old(blockInfo) && (afterPruningWindow == Some(h) || afterSamplingWindow == Some(h) || h in keepBlockInfo)
      ensures forall h :: h in blockInfo ==> blockInfo[h] == old(blockInfo)[h]
    {
      blockInfo := map h | h in blockInfo && IsKept(h) :: blockInfo[h];
    }

    predicate IsKept(h: u64)
      reads this`afterPruningWindow, this`afterSamplingWindow, this`keepBlockInfo
    {
      afterPruningWindow == Some(h) || afterSamplingWindow == Some(h) || h in keepBlockInfo
    }

    /** Fails only for a block that is neither cached nor stored. */
    method GetBlockInfo(headers: Headers, height: u64, ghost chain: Chain) returns (res: Result<BlockInfo, StoreError>)
      requires Truthful(chain) && Follows(headers, chain)
      modifies this`blockInfo
      ensures Truthful(chain) && old(blockInfo).Keys <= blockInfo.Keys
      ensures res.Ok? <==> height in headers || height in old(blockInfo)
      ensures res.Ok? ==> res.value == BlockInfo(height, chain(height)) && height in blockInfo
    {
      if height in blockInfo {
        return Ok(blockInfo[height]);
      }
      if height !in headers {
        return Err(NotFound);
      }
      var info := BlockInfo(height, headers[height]);
      blockInfo := blockInfo[height := info];
      res := Ok(info);
    }

    /**
     * Binary search over any gapped set of heights: the greatest height older than the cutoff,
     * after at most one probe per halving of the set.
     */
    method FindHeightAfterWindowSlow(headers: Headers, storedHeaders: BlockRanges, cutoff: Time, ghost chain: Chain)
      returns (res: Result<Option<u64>, StoreError>, probes: nat)
      requires Sorted(storedHeaders.ranges) && Increasing(chain)
      requires Truthful(chain) && Follows(headers, chain)
      modifies this`blockInfo
      ensures Truthful(chain) && old(blockInfo).Keys <= blockInfo.Keys
      ensures storedHeaders.Contents() <= headers.Keys + old(blockInfo).Keys ==> res.Ok?
      ensures res.Ok? ==> IsGreatestOlder(res.value, storedHeaders.Contents(), chain, cutoff)
      ensures probes <= Depth(|storedHeaders.Contents()|)
    {
      hide Heights, Below, Separates, Separated, Narrowed, IsGreatestOlder, Increasing, Depth;
      var ranges := new BlockRanges.Clone(storedHeaders);
      var highest: Option<BlockInfo> := None;
      NarrowStart(storedHeaders.Contents(), chain, cutoff);
      probes := 0;
      var parts := ranges.Partitions();
      while parts.Some?
        invariant fresh(ranges) && Sorted(ranges.ranges)
        invariant parts.None? <==> ranges.Contents() == {}
        invariant parts.Some? ==> Halved(parts.value, ranges.Contents())
        invariant parts.Some? ==> fresh(parts.value.0) && fresh(parts.value.2)
        invariant Truthful(chain) && old(blockInfo).Keys <= blockInfo.Keys
        invariant Narrowed(ranges.Contents(), highest, storedHeaders.Contents(), chain, cutoff)
        invariant probes + Depth(|ranges.Contents()|) <= Depth(|storedHeaders.Contents()|)
        decreases |ranges.Contents()|
      {
        var (left, middle, right) := parts.value;
        probes := probes + 1;
        CanonicalIsSorted(left.ranges);
        CanonicalIsSorted(right.ranges);
        HalvesAreHalf(left.Contents(), middle, right.Contents(), ranges.Contents());
        Narrow(left.Contents(), middle, right.Contents(), ranges.Contents(), highest, storedHeaders.Contents(), chain, cutoff);
        var info := GetBlockInfo(headers, middle, chain);
        if info.Err? { return Err(info.error), probes; }
        if info.value.time < cutoff {
          if highest.None? || highest.value.time < info.value.time {
            highest := Some(info.value);
          }
          ranges := right;
        } else {
          ranges := left;
        }
        parts := ranges.Partitions();
      }
      NarrowEnd(highest, storedHeaders.Contents(), chain, cutoff);
      res := Ok(if highest.Some? then Some(highest.value.height) else None);
    }

    /**
     * Tries to move the previous bound by at most one stored block. A definite answer is the
     * greatest stored height that is not newer than the cutoff.
     */
    method FindHeightAfterWindowFast(headers: Headers, storedHeaders: BlockRanges, cutoff: Time,
                                     prevAfterWindow: Option<u64>, ghost chain: Chain)
      returns (res: Result<Option<Option<u64>>, StoreError>)
      requires Sorted(storedHeaders.ranges) && Increasing(chain)
      requires Truthful(chain) && Follows(headers, chain)
      requires IsBound(prevAfterWindow, chain, cutoff)
      modifies this`blockInfo
      ensures Truthful(chain) && old(blockInfo).Keys <= blockInfo.Keys
      ensures storedHeaders.Contents() <= headers.Keys + old(blockInfo).Keys ==> res.Ok?
      ensures res.Ok? ==> (res.value.Some? <==> FastDecides(prevAfterWindow, storedHeaders.Contents(), chain, cutoff))
      ensures res.Ok? && res.value.Some? ==>
                IsGreatestNotNewer(res.value.value, storedHeaders.Contents(), chain, cutoff)
    {
      hide Heights, Separated, Increasing, FastDecides, IsGreatestNotNewer;
      ghost var all := storedHeaders.Contents();
      if prevAfterWindow.None? {
        var tail := storedHeaders.Tail();
        if tail.None? {
          NothingStored(chain, cutoff);
          return Ok(Some(None));
        }
        var info := GetBlockInfo(headers, tail.value, chain);
        if info.Err? { return Err(info.error); }
        TailDecides(all, tail.value, chain, cutoff);
        return Ok(if cutoff < info.value.time then Some(None) else None);
      }
      var prev := prevAfterWindow.value;
      var right := storedHeaders.RightOf(prev);
      if right.None? {
        var bound := AtOrLeftOf(storedHeaders, prev);
        assert storedHeaders.Contents() == all;
        NoneMoreOutside(all, prev, bound, chain, cutoff);
        return Ok(Some(bound));
      }
      var info := GetBlockInfo(headers, right.value, chain);
      if info.Err? { return Err(info.error); }
      if cutoff < info.value.time {
        var bound := AtOrLeftOf(storedHeaders, prev);
        assert storedHeaders.Contents() == all;
        NewerAbove(all, prev, right.value, chain, cutoff);
        NoneMoreOutside(all, prev, bound, chain, cutoff);
        return Ok(Some(bound));
      }
      var rightOfRight := storedHeaders.RightOf(right.value);
      assert storedHeaders.Contents() == all;
      if rightOfRight.None? {
        OneMoreOutside(all, prev, right.value, chain, cutoff);
        return Ok(Some(right));
      }
      info := GetBlockInfo(headers, rightOfRight.value, chain);
      if info.Err? { return Err(info.error); }
      if cutoff < info.value.time {
        NewerAbove(all, right.value, rightOfRight.value, chain, cutoff);
        OneMoreOutside(all, prev, right.value, chain, cutoff);
        return Ok(Some(right));
      }
      TwoMoreOutside(all, prev, right.value, rightOfRight.value, chain, cutoff);
      res := Ok(None);
    }

    /** The fast path when it is sure, binary search otherwise. */
    method FindHeightAfterWindow(headers: Headers, storedHeaders: BlockRanges, cutoff: Time,
                                 prevAfterWindow: Option<u64>, ghost chain: Chain)
      returns (res: Result<Option<u64>, StoreError>)
      requires Sorted(storedHeaders.ranges) && Increasing(chain)
      requires Truthful(chain) && Follows(headers, chain)
      requires IsBound(prevAfterWindow, chain, cutoff)
      modifies this`blockInfo
      ensures Truthful(chain) && old(blockInfo).Keys <= blockInfo.Keys
      ensures storedHeaders.Contents() <= headers.Keys + old(blockInfo).Keys ==> res.Ok?
      ensures res.Ok? ==> IsWindowEnd(prevAfterWindow, res.value, storedHeaders.Contents(), chain, cutoff)
    {
      hide FastDecides, IsGreatestOlder, IsGreatestNotNewer, Increasing, Heights;
      var fast := FindHeightAfterWindowFast(headers, storedHeaders, cutoff, prevAfterWindow, chain);
      if fast.Err? { return Err(fast.error); }
      if fast.value.Some? { return Ok(fast.value.value); }
      var probes;
      res, probes := FindHeightAfterWindowSlow(headers, storedHeaders, cutoff, chain);
    }

    /**
     * Refreshes both bounds unless that was done a moment ago. Returns the height to report to
     * the sampler, if the pruning bound moved.
     */
    method UpdateCachedData(headers: Headers, storedBlocks: BlockRanges, samplingCutoff: Time, pruningCutoff: Time,
                            now: Time, updateAfter: Time, ghost chain: Chain)
      returns (res: Result<Option<u64>, StoreError>)
      requires Sorted(storedBlocks.ranges) && Increasing(chain)
      requires Truthful(chain) && Follows(headers, chain)
      requires IsBound(afterSamplingWindow, chain, samplingCutoff) && IsBound(afterPruningWindow, chain, pruningCutoff)
      modifies this
      ensures Truthful(chain)
      ensures storedBlocks.Contents() <= headers.Keys + old(blockInfo).Keys ==> res.Ok?
      ensures IsBound(afterSamplingWindow, chain, samplingCutoff) && IsBound(afterPruningWindow, chain, pruningCutoff)
      ensures res.Err? ==>
                && (old(updatedAt).None? || now - old(updatedAt).value >= updateAfter) && updatedAt == old(updatedAt)
                && afterSamplingWindow == old(afterSamplingWindow) && afterPruningWindow == old(afterPruningWindow)
      ensures old(updatedAt).Some? && now - old(updatedAt).value < updateAfter ==>
                && res == Ok(None) && updatedAt == old(updatedAt) && blockInfo == old(blockInfo)
                && afterSamplingWindow == old(afterSamplingWindow) && afterPruningWindow == old(afterPruningWindow)
      ensures res.Ok? && (old(updatedAt).None? || now - old(updatedAt).value >= updateAfter) ==>
                && Updates(old(afterSamplingWindow), afterSamplingWindow, storedBlocks.Contents(), chain, samplingCutoff)
                && Updates(old(afterPruningWindow), afterPruningWindow, storedBlocks.Contents(), chain, pruningCutoff)
                && Refreshed(old(afterSamplingWindow), afterSamplingWindow, storedBlocks.Contents(), chain, samplingCutoff)
                && Refreshed(old(afterPruningWindow), afterPruningWindow, storedBlocks.Contents(), chain, pruningCutoff)
                && res.value == (if afterPruningWindow != old(afterPruningWindow) then afterPruningWindow else None)
                && updatedAt == Some(now)
                && forall h :: h in blockInfo ==> IsKept(h)
    {
      hide Heights, Increasing, Follows, Updates, Refreshed, IsWindowEnd;
      if updatedAt.Some? && now - updatedAt.value < updateAfter { return Ok(None); }
      var sampling := FindHeightAfterWindow(headers, storedBlocks, samplingCutoff, afterSamplingWindow, chain);
      if sampling.Err? { return Err(sampling.error); }
      var pruning := FindHeightAfterWindow(headers, storedBlocks, pruningCutoff, afterPruningWindow, chain);
      if pruning.Err? { return Err(pruning.error); }
      ZeroIsNoMember(storedBlocks.ranges);
      UpdateRefreshes(afterSamplingWindow, sampling.value, storedBlocks.Contents(), chain, samplingCutoff);
      UpdateRefreshes(afterPruningWindow, pruning.value, storedBlocks.Contents(), chain, pruningCutoff);
      if Less(afterSamplingWindow, sampling.value) {
        afterSamplingWindow := sampling.value;
      }
      var report := None;
      if Less(afterPruningWindow, pruning.value) {
        afterPruningWindow := pruning.value;
        report := pruning.value;
      }
      KeepNeighbours(storedBlocks);
      updatedAt := Some(now);
      res := Ok(report);
    }

    /** One look of the pruner, for both windows. */
    method TakeLook(look: Input, updateAfter: Time, ghost chain: Chain)
      returns (sampling: Look, pruning: Look, failed: bool)
      requires Sorted(look.stored) && Increasing(chain) && Truthful(chain) && Follows(look.headers, chain)
      requires IsBound(afterSamplingWindow, chain, look.samplingCutoff)
      requires IsBound(afterPruningWindow, chain, look.pruningCutoff)
      modifies this
      ensures Truthful(chain) && Looked(sampling, pruning, look)
      ensures sampling.bound == afterSamplingWindow && pruning.bound == afterPruningWindow
      ensures failed ==> !(Heights(look.stored) <= look.headers.Keys)
      ensures sampling.refreshed <==>
                !failed && (old(updatedAt).None? || look.now - old(updatedAt).value >= updateAfter)
      ensures updatedAt == if sampling.refreshed then Some(look.now) else old(updatedAt)
      ensures if sampling.refreshed
              then Updates(old(afterSamplingWindow), afterSamplingWindow, Heights(look.stored), chain, look.samplingCutoff) &&
                   Updates(old(afterPruningWindow), afterPruningWindow, Heights(look.stored), chain, look.pruningCutoff)
              else afterSamplingWindow == old(afterSamplingWindow) && afterPruningWindow == old(afterPruningWindow)
    {
      hide Heights, Increasing, Follows, Updates, Refreshed, Separated;
      var stored := new BlockRanges();
      stored.ranges := look.stored;
      var due := updatedAt.None? || look.now - updatedAt.value >= updateAfter;
      var res := UpdateCachedData(look.headers, stored, look.samplingCutoff, look.pruningCutoff, look.now, updateAfter, chain);
      failed := res.Err?;
      sampling := Look(look.stored, look.samplingCutoff, afterSamplingWindow, res.Ok? && due);
      pruning := Look(look.stored, look.pruningCutoff, afterPruningWindow, res.Ok? && due);
    }

    /** Keeps the cached infos that the next refresh will look at, and no others. */
    method KeepNeighbours(storedBlocks: BlockRanges)
      requires Sorted(storedBlocks.ranges)
      requires afterSamplingWindow.Some? ==> 0 < afterSamplingWindow.value
      requires afterPruningWindow.Some? ==> 0 < afterPruningWindow.value
      modifies this`keepBlockInfo, this`blockInfo
      ensures keepBlockInfo <= storedBlocks.Contents() && |keepBlockInfo| <= 3
      ensures KeepsNext(keepBlockInfo, 0, storedBlocks.Contents())
      ensures afterSamplingWindow.Some? ==>
                KeepsNext(keepBlockInfo, afterSamplingWindow.value, storedBlocks.Contents())
      ensures afterPruningWindow.Some? ==>
                KeepsNext(keepBlockInfo, afterPruningWindow.value, storedBlocks.Contents())
      ensures forall h :: h in blockInfo <==> h in old(blockInfo) && IsKept(h)
      ensures forall h :: h in blockInfo ==> blockInfo[h] == old(blockInfo)[h]
    {
      hide Heights, BlockRange.Span, Separated, KeepsNext;
      var low := TailToKeep(storedBlocks);
      var keep := low;
      if afterSamplingWindow.Some? {
        keep := NextToKeep(storedBlocks, afterSamplingWindow.value, keep);
      }
      ghost var two := keep;
      if afterPruningWindow.Some? {
        keep := NextToKeep(storedBlocks, afterPruningWindow.value, keep);
        if afterSamplingWindow.Some? {
          KeepsNextMore(two, keep, afterSamplingWindow.value, storedBlocks.Contents());
        }
      }
      KeepsNextMore(low, keep, 0, storedBlocks.Contents());
      keepBlockInfo := keep;
      GarbageCollect();
    }

    static method TailToKeep(storedBlocks: BlockRanges) returns (keep: set<u64>)
      requires Sorted(storedBlocks.ranges)
      ensures keep <= storedBlocks.Contents() && |keep| <= 1
      ensures KeepsNext(keep, 0, storedBlocks.Contents())
    {
      hide Heights;
      ZeroIsNoMember(storedBlocks.ranges);
      var tail := storedBlocks.Tail();
      keep := if tail.Some? then {tail.value} else {};
    }

    static method NextToKeep(storedBlocks: BlockRanges, bound: u64, heights: set<u64>) returns (keep: set<u64>)
      requires Sorted(storedBlocks.ranges) && 0 < bound && heights <= storedBlocks.Contents()
      ensures heights <= keep <= storedBlocks.Contents() && |keep| <= |heights| + 1
      ensures KeepsNext(keep, bound, storedBlocks.Contents())
    {
      hide Heights;
      var right := storedBlocks.RightOf(bound);
      keep := if right.Some? then heights + {right.value} else heights;
    }
  }

  /** Order on optional heights: `None` comes first. */
  predicate Less(a: Option<u64>, b: Option<u64>) {
    b.Some? && (a.None? || a.value < b.value)
  }

  /** The bound did not go back, covers every stored header older than the cutoff and none newer than it. */
  ghost predicate Refreshed(before: Option<u64>, after: Option<u64>, stored: set<u64>, chain: Chain, cutoff: Time) {
    && !Less(after, before)
    && IsBound(after, chain, cutoff)
    && (forall h :: h in stored && chain(h) < cutoff ==> after.Some? && h <= after.value)
  }

  /** Larger of the two bounds. */
  function Later(before: Option<u64>, found: Option<u64>): Option<u64> {
    if Less(before, found) then found else before
  }

  /** What the code does in a refresh: search from the bound it has, and keep the larger bound. */
  ghost predicate Updates(before: Option<u64>, after: Option<u64>, stored: set<u64>, chain: Chain, cutoff: Time) {
    exists found ::
      && (IsBound(before, chain, cutoff) ==> IsWindowEnd(before, found, stored, chain, cutoff))
      && after == Later(before, found)
  }

  lemma UpdateRefreshes(before: Option<u64>, found: Option<u64>, stored: set<u64>, chain: Chain, cutoff: Time)
    requires IsBound(before, chain, cutoff) && 0 !in stored && IsWindowEnd(before, found, stored, chain, cutoff)
    ensures Updates(before, Later(before, found), stored, chain, cutoff)
    ensures Refreshed(before, Later(before, found), stored, chain, cutoff)
    ensures IsBound(Later(before, found), chain, cutoff)
  {
    hide FastDecides;
  }

  /** One look at a window: what was stored, the cutoff, the bound afterwards, and whether it was refreshed. */
  datatype Look = Look(stored: seq<BlockRange>, cutoff: Time, bound: Option<u64>, refreshed: bool)

  /** A run of the cache: cutoffs never go back, and the bound changes only in a refresh. */
  ghost predicate IsCacheRun(run: seq<Look>, chain: Chain) {
    forall i :: 0 <= i < |run| ==> IsLook(run, i, chain)
  }

  /** The bound that look `i` starts from. */
  function BoundBefore(run: seq<Look>, i: nat): Option<u64>
    requires i <= |run|
  {
    if i == 0 then None else run[i - 1].bound
  }

  ghost predicate IsLook(run: seq<Look>, i: nat, chain: Chain)
    requires i < |run|
  {
    && Sorted(run[i].stored) && (0 < i ==> run[i - 1].cutoff <= run[i].cutoff)
    && if run[i].refreshed then Updates(BoundBefore(run, i), run[i].bound, Heights(run[i].stored), chain, run[i].cutoff)
       else run[i].bound == BoundBefore(run, i)
  }

  /** In every run the search starts from a bound that is good for it, and a refresh does what it should. */
  lemma {:induction false} BoundBeforeIsGood(run: seq<Look>, chain: Chain, i: nat)
    requires IsCacheRun(run, chain) && i < |run|
    ensures IsBound(BoundBefore(run, i), chain, run[i].cutoff) && IsBound(run[i].bound, chain, run[i].cutoff)
    ensures run[i].refreshed ==> Refreshed(BoundBefore(run, i), run[i].bound, Heights(run[i].stored), chain, run[i].cutoff)
  {
    hide IsWindowEnd, Refreshed, Heights;
    assert IsLook(run, i, chain);
    if 0 < i {
      BoundBeforeIsGood(run, chain, i - 1);
    }
    if run[i].refreshed {
      RefreshOfLook(run[i], BoundBefore(run, i), chain);
    }
  }

  lemma RefreshOfLook(look: Look, before: Option<u64>, chain: Chain)
    requires IsBound(before, chain, look.cutoff) && Sorted(look.stored) && look.refreshed
    requires Updates(before, look.bound, Heights(look.stored), chain, look.cutoff)
    ensures Refreshed(before, look.bound, Heights(look.stored), chain, look.cutoff) && IsBound(look.bound, chain, look.cutoff)
  {
    hide IsWindowEnd, Refreshed, Heights;
    ZeroIsNoMember(look.stored);
    var found :| IsWindowEnd(before, found, Heights(look.stored), chain, look.cutoff) && look.bound == Later(before, found);
    UpdateRefreshes(before, found, Heights(look.stored), chain, look.cutoff);
  }

  /** In every run bounds never go back and never cover a header newer than the cutoff. */
  lemma {:induction false} BoundsOverRuns(run: seq<Look>, chain: Chain, i: nat, j: nat)
    requires Increasing(chain) && IsCacheRun(run, chain) && i <= j < |run|
    ensures !Less(run[j].bound, run[i].bound)
    ensures forall h: u64 :: run[j].bound.Some? && h <= run[j].bound.value ==> chain(h) <= run[j].cutoff
    decreases j
  {
    hide Updates;
    BoundBeforeIsGood(run, chain, j);
    assert IsLook(run, j, chain);
    if i < j {
      BoundsOverRuns(run, chain, i, j - 1);
    }
  }

  /**
   * Right after a refresh the stored heights up to the bound are exactly the headers older than the
   * cutoff, and the one on the cutoff if the fast path gave the answer or the bound was there before.
   */
  lemma RefreshIsExact(run: seq<Look>, chain: Chain, j: nat, h: u64)
    requires Increasing(chain) && IsCacheRun(run, chain) && j < |run| && run[j].refreshed
    requires h in Heights(run[j].stored)
    ensures var look, before := run[j], BoundBefore(run, j);
            (look.bound.Some? && h <= look.bound.value) <==>
            || chain(h) < look.cutoff
            || (chain(h) == look.cutoff && (before == Some(h) || FastDecides(before, Heights(look.stored), chain, look.cutoff)))
  {
    hide Heights, IsWindowEnd, FastDecides, Increasing;
    var look, before := run[j], BoundBefore(run, j);
    assert IsLook(run, j, chain);
    BoundBeforeIsGood(run, chain, j);
    var found :| IsWindowEnd(before, found, Heights(look.stored), chain, look.cutoff) && look.bound == Later(before, found);
    ExactBound(before, found, Heights(look.stored), chain, look.cutoff, h);
  }

  lemma ExactBound(before: Option<u64>, found: Option<u64>, stored: set<u64>, chain: Chain, cutoff: Time, h: u64)
    requires Increasing(chain) && IsBound(before, chain, cutoff) && IsWindowEnd(before, found, stored, chain, cutoff)
    requires h in stored
    ensures var bound := Later(before, found);
            (bound.Some? && h <= bound.value) <==>
            || chain(h) < cutoff
            || (chain(h) == cutoff && (before == Some(h) || FastDecides(before, stored, chain, cutoff)))
  {
    hide FastDecides;
  }

  /** What the pruner sees when it looks. */
  datatype Input = Input(stored: seq<BlockRange>, headers: Headers, samplingCutoff: Time, pruningCutoff: Time, now: Time)

  ghost predicate IsInput(inputs: seq<Input>, i: nat, chain: Chain)
    requires i < |inputs|
  {
    && Sorted(inputs[i].stored) && Follows(inputs[i].headers, chain)
    && (0 < i ==> inputs[i - 1].samplingCutoff <= inputs[i].samplingCutoff)
    && (0 < i ==> inputs[i - 1].pruningCutoff <= inputs[i].pruningCutoff)
    && (0 < i ==> inputs[i - 1].now <= inputs[i].now)
  }

  /** No look before `i` refreshed the bounds less than `updateAfter` ago. */
  ghost predicate IsDue(run: seq<Look>, inputs: seq<Input>, i: nat, updateAfter: Time)
    requires i <= |run| && i < |inputs|
  {
    forall j {:trigger run[j]} :: 0 <= j < i && run[j].refreshed ==> inputs[i].now - inputs[j].now >= updateAfter
  }

  /**
   * The pruner's cache over any sequence of looks, failed ones included: both bounds make a run. A look
   * that does not fail refreshes them exactly when no recent one did, and none fails whose headers are there.
   */
  method RefreshAll(inputs: seq<Input>, updateAfter: Time, ghost chain: Chain)
    returns (sampling: seq<Look>, pruning: seq<Look>, failed: seq<bool>)
    requires Increasing(chain) && forall i :: 0 <= i < |inputs| ==> IsInput(inputs, i, chain)
    ensures |sampling| == |pruning| == |failed| == |inputs|
    ensures IsCacheRun(sampling, chain) && IsCacheRun(pruning, chain)
    ensures forall i :: 0 <= i < |inputs| ==>
              && sampling[i].stored == pruning[i].stored == inputs[i].stored
              && sampling[i].cutoff == inputs[i].samplingCutoff && pruning[i].cutoff == inputs[i].pruningCutoff
              && sampling[i].refreshed == pruning[i].refreshed
    ensures forall i :: 0 <= i < |inputs| ==>
              && (sampling[i].refreshed <==> !failed[i] && IsDue(sampling, inputs, i, updateAfter))
              && (failed[i] ==> !(Heights(inputs[i].stored) <= inputs[i].headers.Keys))
  {
    hide Heights, Increasing, Follows, Updates, IsDue, LastRefresh, IsCacheRun, Separated, Outcomes;
    sampling, pruning, failed := [], [], [];
    var cache := new Cache();
    NothingYet(inputs, chain, updateAfter);
    for i := 0 to |inputs|
      invariant |sampling| == |pruning| == |failed| == i && fresh(cache) && cache.Truthful(chain)
      invariant IsCacheRun(sampling, chain) && IsCacheRun(pruning, chain)
      invariant cache.afterSamplingWindow == BoundBefore(sampling, i)
      invariant cache.afterPruningWindow == BoundBefore(pruning, i)
      invariant LastRefresh(sampling, inputs, i, cache.updatedAt)
      invariant Outcomes(sampling, pruning, failed, inputs, i, updateAfter)
      invariant 0 < i ==> Looked(sampling[i - 1], pruning[i - 1], inputs[i - 1])
    {
      assert IsInput(inputs, i, chain);
      if 0 < i {
        BoundBeforeIsGood(sampling, chain, i - 1);
        BoundBeforeIsGood(pruning, chain, i - 1);
      }
      DueIffLastIsOld(sampling, inputs, i, cache.updatedAt, updateAfter, chain);
      var nextSampling, nextPruning, fails := cache.TakeLook(inputs[i], updateAfter, chain);
      LookMore(sampling, nextSampling, chain);
      LookMore(pruning, nextPruning, chain);
      OutcomesMore(sampling, nextSampling, pruning, nextPruning, failed, fails, inputs, updateAfter);
      RefreshMore(sampling, nextSampling, inputs, cache.updatedAt);
      sampling, pruning, failed := sampling + [nextSampling], pruning + [nextPruning], failed + [fails];
    }
    OutcomesHold(sampling, pruning, failed, inputs, updateAfter);
  }

  ghost predicate Outcomes(sampling: seq<Look>, pruning: seq<Look>, failed: seq<bool>, inputs: seq<Input>,
                           n: nat, updateAfter: Time) {
    && |sampling| == |pruning| == |failed| == n <= |inputs|
    && forall k :: 0 <= k < n ==>
         && Looked(sampling[k], pruning[k], inputs[k])
         && (sampling[k].refreshed <==> !failed[k] && IsDue(sampling, inputs, k, updateAfter))
         && (failed[k] ==> !(Heights(inputs[k].stored) <= inputs[k].headers.Keys))
  }

  lemma OutcomesHold(sampling: seq<Look>, pruning: seq<Look>, failed: seq<bool>, inputs: seq<Input>, updateAfter: Time)
    requires Outcomes(sampling, pruning, failed, inputs, |inputs|, updateAfter)
    ensures |sampling| == |pruning| == |failed| == |inputs|
    ensures forall i :: 0 <= i < |inputs| ==>
              && sampling[i].stored == pruning[i].stored == inputs[i].stored
              && sampling[i].cutoff == inputs[i].samplingCutoff && pruning[i].cutoff == inputs[i].pruningCutoff
              && sampling[i].refreshed == pruning[i].refreshed
    ensures forall i :: 0 <= i < |inputs| ==>
              && (sampling[i].refreshed <==> !failed[i] && IsDue(sampling, inputs, i, updateAfter))
              && (failed[i] ==> !(Heights(inputs[i].stored) <= inputs[i].headers.Keys))
  {
    hide Heights, IsDue;
  }

  lemma OutcomesMore(sampling: seq<Look>, s: Look, pruning: seq<Look>, p: Look, failed: seq<bool>, fails: bool,
                     inputs: seq<Input>, updateAfter: Time)
    requires Outcomes(sampling, pruning, failed, inputs, |sampling|, updateAfter) && |sampling| < |inputs|
    requires var i := |sampling|;
             && Looked(s, p, inputs[i])
             && (s.refreshed <==> !fails && IsDue(sampling, inputs, i, updateAfter))
             && (fails ==> !(Heights(inputs[i].stored) <= inputs[i].headers.Keys))
    ensures Outcomes(sampling + [s], pruning + [p], failed + [fails], inputs, |sampling| + 1, updateAfter)
  {
    hide Heights, IsDue, Looked;
    DueMore(sampling, s, inputs, updateAfter);
  }

  ghost predicate Looked(sampling: Look, pruning: Look, input: Input) {
    && sampling.stored == pruning.stored == input.stored && sampling.refreshed == pruning.refreshed
    && sampling.cutoff == input.samplingCutoff && pruning.cutoff == input.pruningCutoff
  }

  /** `at` is when the last look that refreshed took place. */
  ghost predicate LastRefresh(run: seq<Look>, inputs: seq<Input>, i: nat, at: Option<Time>)
    requires i <= |run| && i <= |inputs|
  {
    if at.None? then forall j :: 0 <= j < i ==> !run[j].refreshed
    else exists last :: 0 <= last < i && run[last].refreshed && inputs[last].now == at.value &&
                        forall j :: last < j < i ==> !run[j].refreshed
  }

  lemma NothingYet(inputs: seq<Input>, chain: Chain, updateAfter: Time)
    ensures LastRefresh([], inputs, 0, None) && IsCacheRun([], chain) && Outcomes([], [], [], inputs, 0, updateAfter)
  {}

  lemma {:induction false} TimesGrow(inputs: seq<Input>, chain: Chain, i: nat, j: nat)
    requires i <= j < |inputs| && forall k :: 0 <= k < |inputs| ==> IsInput(inputs, k, chain)
    ensures inputs[i].now <= inputs[j].now
    decreases j
  {
    if i < j {
      assert IsInput(inputs, j, chain);
      TimesGrow(inputs, chain, i, j - 1);
    }
  }

  lemma DueIffLastIsOld(run: seq<Look>, inputs: seq<Input>, i: nat, at: Option<Time>, updateAfter: Time, chain: Chain)
    requires i == |run| < |inputs| && LastRefresh(run, inputs, i, at)
    requires forall k :: 0 <= k < |inputs| ==> IsInput(inputs, k, chain)
    ensures IsDue(run, inputs, i, updateAfter) <==> at.None? || inputs[i].now - at.value >= updateAfter
  {
    if at.Some? {
      var last :| 0 <= last < i && run[last].refreshed && inputs[last].now == at.value &&
                  forall j :: last < j < i ==> !run[j].refreshed;
      forall j | 0 <= j < i && run[j].refreshed
        ensures inputs[j].now <= at.value
      {
        TimesGrow(inputs, chain, j, last);
      }
    }
  }

  /** Later looks do not change whether an earlier one was due. */
  lemma DueMore(run: seq<Look>, look: Look, inputs: seq<Input>, updateAfter: Time)
    requires |run| < |inputs|
    ensures forall k :: 0 <= k <= |run| ==> (IsDue(run + [look], inputs, k, updateAfter) <==> IsDue(run, inputs, k, updateAfter))
  {
    var more := run + [look];
    assert forall j :: 0 <= j < |run| ==> more[j] == run[j];
  }

  lemma RefreshMore(run: seq<Look>, look: Look, inputs: seq<Input>, at: Option<Time>)
    requires |run| < |inputs|
    requires if look.refreshed then at == Some(inputs[|run|].now) else LastRefresh(run, inputs, |run|, at)
    ensures LastRefresh(run + [look], inputs, |run| + 1, at)
  {
    var more := run + [look];
    assert forall j :: 0 <= j < |run| ==> more[j] == run[j];
    assert more[|run|] == look;
    if !look.refreshed && at.Some? {
      var last :| 0 <= last < |run| && run[last].refreshed && inputs[last].now == at.value &&
                  forall j :: last < j < |run| ==> !run[j].refreshed;
      assert more[last].refreshed;
    }
  }

  lemma LookMore(run: seq<Look>, look: Look, chain: Chain)
    requires IsCacheRun(run, chain) && Sorted(look.stored)
    requires run != [] ==> run[|run| - 1].cutoff <= look.cutoff
    requires if look.refreshed then Updates(BoundBefore(run, |run|), look.bound, Heights(look.stored), chain, look.cutoff)
             else look.bound == BoundBefore(run, |run|)
    ensures IsCacheRun(run + [look], chain)
  {
    hide Updates, Heights;
    var more := run + [look];
    forall i | 0 <= i < |more|
      ensures IsLook(more, i, chain)
    {
      if i < |run| { assert IsLook(run, i, chain); }
    }
  }

  method AtOrLeftOf(ranges: BlockRanges, height: u64) returns (h: Option<u64>)
    requires Sorted(ranges.ranges) && 0 < height
    ensures h.Some? ==> h.value in ranges.Contents() && h.value <= height
    ensures forall x :: x in ranges.Contents() && x <= height ==> h.Some? && x <= h.value
  {
    var stored := ranges.Contains(height);
    if stored { return Some(height); }
    h := ranges.LeftOf(height);
  }

  /** A bound that a search may start from: nothing at or below it is newer than the cutoff. */
  ghost predicate IsBound(bound: Option<u64>, chain: Chain, cutoff: Time) {
    bound.Some? ==> 0 < bound.value && chain(bound.value) <= cutoff
  }

  /** The search has decided about everything outside `rest`. */
  ghost predicate Narrowed(rest: set<u64>, highest: Option<BlockInfo>, stored: set<u64>, chain: Chain, cutoff: Time) {
    && rest <= stored
    && (highest.Some? ==> highest.value == BlockInfo(highest.value.height, chain(highest.value.height)))
    && (highest.Some? ==> highest.value.height in stored && highest.value.time < cutoff)
    && (highest.Some? ==> Below({highest.value.height}, rest))
    && (forall h :: h in stored - rest && chain(h) < cutoff ==> highest.Some? && h <= highest.value.height)
  }

  lemma NarrowStart(stored: set<u64>, chain: Chain, cutoff: Time)
    ensures Narrowed(stored, None, stored, chain, cutoff)
  {}

  lemma NarrowEnd(highest: Option<BlockInfo>, stored: set<u64>, chain: Chain, cutoff: Time)
    requires Narrowed({}, highest, stored, chain, cutoff)
    ensures IsGreatestOlder(if highest.Some? then Some(highest.value.height) else None, stored, chain, cutoff)
  {}

  lemma HalvesAreHalf(left: set<u64>, middle: u64, right: set<u64>, all: set<u64>)
    requires Separates(left, middle, right, all) && -1 <= |left| - |right| <= 1
    ensures |left| < |all| && |right| < |all|
    ensures 1 + Depth(|left|) <= Depth(|all|) && 1 + Depth(|right|) <= Depth(|all|)
  {
    DepthMonotone(|left|, |all| / 2);
    DepthMonotone(|right|, |all| / 2);
  }

  lemma Narrow(left: set<u64>, middle: u64, right: set<u64>, all: set<u64>,
               highest: Option<BlockInfo>, stored: set<u64>, chain: Chain, cutoff: Time)
    requires Increasing(chain) && Separates(left, middle, right, all)
    requires Narrowed(all, highest, stored, chain, cutoff)
    ensures middle in stored && (highest.Some? ==> highest.value.time < chain(middle))
    ensures chain(middle) < cutoff ==> Narrowed(right, Some(BlockInfo(middle, chain(middle))), stored, chain, cutoff)
    ensures chain(middle) >= cutoff ==> Narrowed(left, highest, stored, chain, cutoff)
  {}
}
