/** Which blocks the pruner removes next. */
module PrunerBatch {
  import opened BlockRangeExt
  import opened RangeLists
  import opened BlockRangeSets
  import opened StoreModel
  import opened PrunerWindow

  const MAX_PRUNABLE_BATCH_SIZE: u64 := 512

  /** All heights up to a cached bound. */
  ghost function Area(bound: Option<u64>): set<u64> {
    if bound.Some? then BlockRange(1, bound.value).Span() else {}
  }

  /** Stored, outside the pruning window and outside the sampling window. */
  ghost function AfterSampling(stored: set<u64>, afterPruning: Option<u64>, afterSampling: Option<u64>): set<u64> {
    stored * Area(afterPruning) * Area(afterSampling)
  }

  /** Stored, outside the pruning window but inside the sampling window, sampled, and not an edge. */
  ghost function PrunableAndSampled(stored: set<u64>, pruned: set<u64>, sampled: set<u64>,
                                    afterPruning: Option<u64>, afterSampling: Option<u64>): set<u64> {
    (stored * Area(afterPruning) - Area(afterSampling) - EdgesOf(pruned + stored)) * sampled
  }

  /**
   * `batch` takes the highest of `free`, and with the room that is left the highest members of
   * `guarded` that are sampled or that the sampler lets go. `asked` are the ones it was asked about.
   */
  ghost predicate IsBatch(batch: set<u64>, free: set<u64>, guarded: set<u64>, sampled: set<u64>,
                          permits: u64 -> bool, asked: set<u64>) {
    && |batch| <= MAX_PRUNABLE_BATCH_SIZE
    && batch <= free + guarded
    && IsTop(batch * free, free, MAX_PRUNABLE_BATCH_SIZE)
    && asked <= guarded - sampled
    && (forall h :: h in batch * guarded ==> h in sampled || (h in asked && permits(h)))
    && (forall h :: h in asked && permits(h) ==> h in batch)
    && (|batch| < MAX_PRUNABLE_BATCH_SIZE ==> asked == guarded - sampled)
    && (forall h :: h in guarded - batch && (h in sampled || permits(h)) ==>
          |batch| == MAX_PRUNABLE_BATCH_SIZE && h !in asked && forall x :: x in batch * guarded ==> h < x)
  }

  /**
   * All blocks that may go now or once the sampler lets them: stored, outside the pruning window, and
   * either outside the sampling window or sampled and not an edge of what is synced.
   */
  ghost function Prunable(stored: set<u64>, pruned: set<u64>, sampled: set<u64>,
                          afterPruning: Option<u64>, afterSampling: Option<u64>): set<u64> {
    set h | h in stored && afterPruning.Some? && h <= afterPruning.value &&
            ((afterSampling.Some? && h <= afterSampling.value) || (h in sampled && !IsEdge(pruned + stored, h)))
  }

  /** `1..=bound`, or nothing. */
  method AreaUpTo(bound: Option<u64>) returns (area: BlockRanges)
    requires bound.Some? ==> 0 < bound.value
    ensures fresh(area) && Canonical(area.ranges) && area.Contents() == Area(bound)
  {
    area := new BlockRanges();
    HeightsEmpty();
    if bound.Some? {
      var res := area.InsertRelaxed(BlockRange(1, bound.value));
      assert res.Ok?;
    }
  }

  /** The two kinds of blocks that may go. */
  method SplitCandidates(stored: BlockRanges, pruned: BlockRanges, sampled: BlockRanges,
                         afterPruning: Option<u64>, afterSampling: Option<u64>)
    returns (guarded: BlockRanges, free: BlockRanges)
    requires Canonical(stored.ranges) && Canonical(pruned.ranges) && Canonical(sampled.ranges)
    requires afterPruning.Some? ==> 0 < afterPruning.value
    requires afterSampling.Some? ==> 0 < afterSampling.value
    ensures fresh(guarded) && fresh(free) && guarded != free && Canonical(guarded.ranges) && Canonical(free.ranges)
    ensures guarded.Contents() == AfterSampling(stored.Contents(), afterPruning, afterSampling)
    ensures free.Contents() == PrunableAndSampled(stored.Contents(), pruned.Contents(), sampled.Contents(),
                                                  afterPruning, afterSampling)
  {
    hide Heights, EdgesOf, Area, Separated;
    var nonSamplingArea := AreaUpTo(afterSampling);
    var prunableArea := AreaUpTo(afterPruning);
    var synced := new BlockRanges.Clone(pruned);
    CanonicalIsSorted(pruned.ranges);
    CanonicalIsSorted(stored.ranges);
    CanonicalIsSorted(sampled.ranges);
    synced.AddAssign(stored);
    var edges := synced.Edges();
    var candidates := new BlockRanges.Clone(stored);
    CanonicalIsSorted(prunableArea.ranges);
    candidates.BitAndAssign(prunableArea);
    guarded := new BlockRanges.Clone(candidates);
    CanonicalIsSorted(candidates.ranges);
    CanonicalIsSorted(nonSamplingArea.ranges);
    guarded.BitAndAssign(nonSamplingArea);
    free := new BlockRanges.Clone(candidates);
    CanonicalIsSorted(guarded.ranges);
    free.SubAssign(guarded);
    CanonicalIsSorted(edges.ranges);
    free.SubAssign(edges);
    free.BitAndAssign(sampled);
    FreeIsOutside(stored.Contents() * Area(afterPruning), Area(afterSampling),
                  EdgesOf(pruned.Contents() + stored.Contents()), sampled.Contents());
  }

  lemma FreeIsOutside(candidates: set<u64>, area: set<u64>, edges: set<u64>, sampled: set<u64>)
    ensures (candidates - (candidates * area) - edges) * sampled == (candidates - area - edges) * sampled
  {}

  /** Fills the batch from the top of `guarded`, asking the sampler about what is not sampled. */
  method FillBatch(batch: BlockRanges, guarded: BlockRanges, sampled: BlockRanges, permits: u64 -> bool,
                   ghost free: set<u64>)
    returns (asked: set<u64>)
    requires batch != guarded && batch != sampled && guarded != sampled
    requires Canonical(batch.ranges) && Canonical(guarded.ranges)
    requires IsTop(batch.Contents(), free, MAX_PRUNABLE_BATCH_SIZE) && free !! guarded.Contents()
    modifies batch, guarded
    ensures Canonical(batch.ranges)
    ensures IsBatch(batch.Contents(), free, old(guarded.Contents()), sampled.Contents(), permits, asked)
  {
    hide Heights, Below, Filling, IsBatch, IsTop;
    asked := {};
    ghost var top, all := batch.Contents(), guarded.Contents();
    ghost var added: set<u64> := {};
    ZeroIsNoMember(guarded.ranges);
    TopFits(top, free, MAX_PRUNABLE_BATCH_SIZE);
    FillStart(all, sampled.Contents(), permits);
    while true
      invariant Canonical(batch.ranges) && Canonical(guarded.ranges)
      invariant batch.Contents() == top + added && |batch.Contents()| <= MAX_PRUNABLE_BATCH_SIZE
      invariant Filling(added, all, guarded.Contents(), sampled.Contents(), permits, asked)
      decreases guarded.Contents()
    {
      ghost var rest := guarded.Contents();
      var height := guarded.PopHead();
      if height.None? {
        HeightsEmpty();
        FillEnd(top, added, free, all, rest, sampled.Contents(), permits, asked);
        break;
      }
      var len := batch.Len();
      if len == MAX_PRUNABLE_BATCH_SIZE {
        FillEnd(top, added, free, all, rest, sampled.Contents(), permits, asked);
        break;
      }
      assert guarded.Contents() + {height.value} == rest;
      FillStep(added, all, guarded.Contents(), height.value, sampled.Contents(), permits, asked);
      var isSampled := sampled.Contains(height.value);
      if !isSampled { asked := asked + {height.value}; }
      if isSampled || permits(height.value) {
        SingleSpan(height.value);
        UnionAssociative(top, added, {height.value});
        OneMore(batch.Contents(), height.value);
        var res := batch.InsertRelaxed(BlockRange(height.value, height.value));
        assert res.Ok?;
        added := added + {height.value};
      }
    }
  }

  class Worker {
    const cache: Cache
    var prevNumOfPrunableBlocks: u64

    constructor ()
      ensures fresh(cache) && prevNumOfPrunableBlocks == 0
      ensures cache.blockInfo == map[] && cache.afterPruningWindow == None && cache.afterSamplingWindow == None
    {
      cache := new Cache();
      prevNumOfPrunableBlocks := 0;
    }

    /**
     * The next batch, the heights the sampler was asked about, and the two values reported to
     * the sampler when they changed: the highest prunable height and the number of prunable blocks.
     */
    method GetNextPrunableBatch(headers: Headers, stored: BlockRanges, pruned: BlockRanges, sampled: BlockRanges,
                                samplingCutoff: Time, pruningCutoff: Time, now: Time, updateAfter: Time,
                                permits: u64 -> bool, ghost chain: Chain)
      returns (res: Result<BlockRanges, StoreError>, asked: set<u64>, highest: Option<u64>, count: Option<u64>)
      requires Canonical(stored.ranges) && Canonical(pruned.ranges) && Canonical(sampled.ranges)
      requires Increasing(chain) && Follows(headers, chain) && cache.Truthful(chain)
      requires IsBound(cache.afterSamplingWindow, chain, samplingCutoff)
      requires IsBound(cache.afterPruningWindow, chain, pruningCutoff)
      modifies this, cache
      ensures cache.Truthful(chain)
      ensures IsBound(cache.afterSamplingWindow, chain, samplingCutoff)
      ensures IsBound(cache.afterPruningWindow, chain, pruningCutoff)
      ensures stored.Contents() <= headers.Keys ==> res.Ok?
      ensures res.Ok? && (old(cache.updatedAt).None? || now - old(cache.updatedAt).value >= updateAfter) ==>
                && cache.updatedAt == Some(now)
                && Refreshed(old(cache.afterSamplingWindow), cache.afterSamplingWindow, stored.Contents(), chain, samplingCutoff)
                && Refreshed(old(cache.afterPruningWindow), cache.afterPruningWindow, stored.Contents(), chain, pruningCutoff)
      ensures old(cache.updatedAt).Some? && now - old(cache.updatedAt).value < updateAfter ==>
                && cache.afterSamplingWindow == old(cache.afterSamplingWindow)
                && cache.afterPruningWindow == old(cache.afterPruningWindow)
      ensures res.Ok? ==>
                && fresh(res.value) && Canonical(res.value.ranges)
                && IsBatch(res.value.Contents(), Free(stored, pruned, sampled), Guarded(stored), sampled.Contents(), permits, asked)
                && prevNumOfPrunableBlocks == |Prunable(stored.Contents(), pruned.Contents(), sampled.Contents(),
                                                        cache.afterPruningWindow, cache.afterSamplingWindow)|
                && (count == if prevNumOfPrunableBlocks == old(prevNumOfPrunableBlocks) then None else Some(prevNumOfPrunableBlocks))
                && highest == (if cache.afterPruningWindow == old(cache.afterPruningWindow) then None
                               else cache.afterPruningWindow)
    {
      hide Heights, Separated, IsBatch, Increasing, Follows, AfterSampling, PrunableAndSampled, Prunable, Refreshed;
      asked, highest, count := {}, None, None;
      CanonicalIsSorted(stored.ranges);
      var updated := cache.UpdateCachedData(headers, stored, samplingCutoff, pruningCutoff, now, updateAfter, chain);
      if updated.Err? { return Err(updated.error), asked, highest, count; }
      highest := updated.value;
      var batch, total;
      batch, asked, total := PickBatch(stored, pruned, sampled, permits);
      if prevNumOfPrunableBlocks != total {
        count := Some(total);
        prevNumOfPrunableBlocks := total;
      }
      res := Ok(batch);
    }

    /** The part of `GetNextPrunableBatch` that follows the refresh of the cached bounds. */
    method PickBatch(stored: BlockRanges, pruned: BlockRanges, sampled: BlockRanges, permits: u64 -> bool)
      returns (batch: BlockRanges, asked: set<u64>, total: u64)
      requires Canonical(stored.ranges) && Canonical(pruned.ranges) && Canonical(sampled.ranges)
      requires cache.afterPruningWindow.Some? ==> 0 < cache.afterPruningWindow.value
      requires cache.afterSamplingWindow.Some? ==> 0 < cache.afterSamplingWindow.value
      ensures fresh(batch) && Canonical(batch.ranges)
      ensures IsBatch(batch.Contents(), Free(stored, pruned, sampled), Guarded(stored), sampled.Contents(), permits, asked)
      ensures total == |Prunable(stored.Contents(), pruned.Contents(), sampled.Contents(),
                                 cache.afterPruningWindow, cache.afterSamplingWindow)|
    {
      hide Heights, Separated, IsTop, IsBatch, PrunableAndSampled, AfterSampling, Prunable;
      var guarded, free := SplitCandidates(stored, pruned, sampled, cache.afterPruningWindow, cache.afterSamplingWindow);
      CanonicalIsSorted(guarded.ranges);
      CanonicalIsSorted(free.ranges);
      var guardedLen := guarded.Len();
      var freeLen := free.Len();
      CanonicalIsSorted(stored.ranges);
      PrunableCount(stored.ranges, pruned.Contents(), sampled.Contents(), cache.afterPruningWindow, cache.afterSamplingWindow);
      total := guardedLen + freeLen;
      batch := free.HeadN(MAX_PRUNABLE_BATCH_SIZE);
      asked := FillBatch(batch, guarded, sampled, permits, free.Contents());
    }

    ghost function Guarded(stored: BlockRanges): set<u64>
      reads cache, stored
    {
      AfterSampling(stored.Contents(), cache.afterPruningWindow, cache.afterSamplingWindow)
    }

    ghost function Free(stored: BlockRanges, pruned: BlockRanges, sampled: BlockRanges): set<u64>
      reads cache, stored, pruned, sampled
    {
      PrunableAndSampled(stored.Contents(), pruned.Contents(), sampled.Contents(),
                         cache.afterPruningWindow, cache.afterSamplingWindow)
    }
  }

  /**
   * What leaves with a batch: stored blocks outside the pruning window that are either outside the
   * sampling window and sampled or let go by the sampler, or sampled and not an edge of what is synced.
   */
  lemma BatchBlocksMayGo(batch: set<u64>, stored: set<u64>, pruned: set<u64>, sampled: set<u64>,
                         afterPruning: Option<u64>, afterSampling: Option<u64>,
                         permits: u64 -> bool, asked: set<u64>, chain: Chain, pruningCutoff: Time, h: u64)
    requires IsBatch(batch, PrunableAndSampled(stored, pruned, sampled, afterPruning, afterSampling),
                     AfterSampling(stored, afterPruning, afterSampling), sampled, permits, asked)
    requires Increasing(chain) && IsBound(afterPruning, chain, pruningCutoff)
    requires h in batch
    ensures |batch| <= 512 && h in stored && chain(h) <= pruningCutoff
    ensures afterPruning.Some? && h <= afterPruning.value
    ensures if afterSampling.Some? && h <= afterSampling.value then h in sampled || (h in asked && permits(h))
            else h in sampled && !IsEdge(pruned + stored, h)
  {
    hide IsBatch, PrunableAndSampled, AfterSampling, IsEdge;
    var free := PrunableAndSampled(stored, pruned, sampled, afterPruning, afterSampling);
    var guarded := AfterSampling(stored, afterPruning, afterSampling);
    BatchMember(batch, free, guarded, sampled, permits, asked, h);
    if h in free {
      FreeBlock(stored, pruned, sampled, afterPruning, afterSampling, h);
    } else {
      GuardedBlock(stored, afterPruning, afterSampling, h);
    }
    assert chain(h) <= chain(afterPruning.value);
  }

  /** The number of prunable blocks is the sum of both kinds, and it fits. */
  lemma PrunableCount(rs: seq<BlockRange>, pruned: set<u64>, sampled: set<u64>,
                      afterPruning: Option<u64>, afterSampling: Option<u64>)
    requires Sorted(rs)
    ensures var free := PrunableAndSampled(Heights(rs), pruned, sampled, afterPruning, afterSampling);
            var guarded := AfterSampling(Heights(rs), afterPruning, afterSampling);
            && free !! guarded
            && |free| + |guarded| == |Prunable(Heights(rs), pruned, sampled, afterPruning, afterSampling)| <= U64_MAX
  {
    hide Heights, IsEdge, PrunableAndSampled, AfterSampling;
    ZeroIsNoMember(rs);
    PrunableIsFreeOrGuarded(Heights(rs), pruned, sampled, afterPruning, afterSampling);
    AllMembers(rs);
    BlockRange(1, U64_MAX).SpanSize();
    SubsetSize(Prunable(Heights(rs), pruned, sampled, afterPruning, afterSampling), AllHeights());
  }

  lemma PrunableIsFreeOrGuarded(stored: set<u64>, pruned: set<u64>, sampled: set<u64>,
                                afterPruning: Option<u64>, afterSampling: Option<u64>)
    requires 0 !in stored
    ensures var free := PrunableAndSampled(stored, pruned, sampled, afterPruning, afterSampling);
            var guarded := AfterSampling(stored, afterPruning, afterSampling);
            && Prunable(stored, pruned, sampled, afterPruning, afterSampling) == free + guarded
            && free !! guarded
            && |free + guarded| == |free| + |guarded|
  {
    hide IsEdge, PrunableAndSampled, AfterSampling;
    var free := PrunableAndSampled(stored, pruned, sampled, afterPruning, afterSampling);
    var guarded := AfterSampling(stored, afterPruning, afterSampling);
    forall h: u64
      ensures h in free + guarded <==> h in Prunable(stored, pruned, sampled, afterPruning, afterSampling)
      ensures !(h in free && h in guarded)
    {
      IsCandidate(stored, pruned, sampled, afterPruning, afterSampling, h);
    }
    assert free !! guarded;
  }

  /** The two kinds of candidates, block by block. */
  lemma IsCandidate(stored: set<u64>, pruned: set<u64>, sampled: set<u64>,
                    afterPruning: Option<u64>, afterSampling: Option<u64>, h: u64)
    requires 0 < h || h !in stored
    ensures h in AfterSampling(stored, afterPruning, afterSampling) <==>
            && h in stored && afterPruning.Some? && h <= afterPruning.value
            && afterSampling.Some? && h <= afterSampling.value
    ensures h in PrunableAndSampled(stored, pruned, sampled, afterPruning, afterSampling) <==>
            && h in stored && afterPruning.Some? && h <= afterPruning.value
            && !(afterSampling.Some? && h <= afterSampling.value)
            && h in sampled && !IsEdge(pruned + stored, h)
  {
    assert h in EdgesOf(pruned + stored) <==> IsEdge(pruned + stored, h);
  }

  /**
   * What may go goes, from the top: a stored block outside the pruning window that is outside the
   * sampling window and sampled or let go, or inside it, sampled and not an edge, is in the batch unless
   * the batch is full, and then with higher blocks of its kind. Outside both windows the sampler was asked
   * about every block that is not sampled, unless the batch is full.
   */
  lemma BatchIsComplete(batch: set<u64>, stored: set<u64>, pruned: set<u64>, sampled: set<u64>,
                        afterPruning: Option<u64>, afterSampling: Option<u64>,
                        permits: u64 -> bool, asked: set<u64>, h: u64)
    requires IsBatch(batch, PrunableAndSampled(stored, pruned, sampled, afterPruning, afterSampling),
                     AfterSampling(stored, afterPruning, afterSampling), sampled, permits, asked)
    requires 0 < h && h in stored && afterPruning.Some? && h <= afterPruning.value
    ensures var outside := afterSampling.Some? && h <= afterSampling.value;
            && ((if outside then h in sampled || permits(h) else h in sampled && !IsEdge(pruned + stored, h)) ==>
                  || h in batch
                  || (|batch| == 512 &&
                      forall x :: x in batch && ((afterSampling.Some? && x <= afterSampling.value) <==> outside) ==> h < x))
            && (outside && h !in sampled ==> h in asked || |batch| == 512)
  {
    hide IsBatch, IsEdge, PrunableAndSampled, AfterSampling;
    var free := PrunableAndSampled(stored, pruned, sampled, afterPruning, afterSampling);
    var guarded := AfterSampling(stored, afterPruning, afterSampling);
    IsCandidate(stored, pruned, sampled, afterPruning, afterSampling, h);
    forall x | x in batch
      ensures x in free + guarded
      ensures x in guarded <==> afterSampling.Some? && x <= afterSampling.value
    {
      BatchMember(batch, free, guarded, sampled, permits, asked, x);
      if x in free {
        FreeBlock(stored, pruned, sampled, afterPruning, afterSampling, x);
      }
      if x in guarded {
        GuardedBlock(stored, afterPruning, afterSampling, x);
      }
    }
    if h in guarded {
      GuardedGoes(batch, free, guarded, sampled, permits, asked, h);
    } else if h in free && h !in batch {
      FreeGoes(batch, free, guarded, sampled, permits, asked, h);
    }
  }

  lemma GuardedGoes(batch: set<u64>, free: set<u64>, guarded: set<u64>, sampled: set<u64>,
                    permits: u64 -> bool, asked: set<u64>, h: u64)
    requires IsBatch(batch, free, guarded, sampled, permits, asked) && h in guarded
    ensures (h in sampled || permits(h)) && h !in batch ==>
              |batch| == 512 && forall x :: x in batch && x in guarded ==> h < x
    ensures h !in sampled ==> h in asked || |batch| == 512
  {
    assert forall x :: x in batch && x in guarded ==> x in batch * guarded;
  }

  lemma FreeGoes(batch: set<u64>, free: set<u64>, guarded: set<u64>, sampled: set<u64>,
                 permits: u64 -> bool, asked: set<u64>, h: u64)
    requires IsBatch(batch, free, guarded, sampled, permits, asked) && h in free && h !in batch
    ensures |batch| == 512 && forall x :: x in batch && x in free ==> h < x
  {
    SubsetSize(batch * free, free);
    SubsetSize(batch * free, batch);
    assert h in free - batch * free;
    assert forall x :: x in batch && x in free ==> x in batch * free;
  }

  lemma BatchMember(batch: set<u64>, free: set<u64>, guarded: set<u64>, sampled: set<u64>,
                    permits: u64 -> bool, asked: set<u64>, h: u64)
    requires IsBatch(batch, free, guarded, sampled, permits, asked) && h in batch
    ensures |batch| <= 512
    ensures h in free || (h in guarded && (h in sampled || (h in asked && permits(h))))
  {}

  lemma FreeBlock(stored: set<u64>, pruned: set<u64>, sampled: set<u64>,
                  afterPruning: Option<u64>, afterSampling: Option<u64>, h: u64)
    requires h in PrunableAndSampled(stored, pruned, sampled, afterPruning, afterSampling)
    ensures h in stored && afterPruning.Some? && h <= afterPruning.value
    ensures !(afterSampling.Some? && h <= afterSampling.value) && h in sampled && !IsEdge(pruned + stored, h)
  {}

  lemma GuardedBlock(stored: set<u64>, afterPruning: Option<u64>, afterSampling: Option<u64>, h: u64)
    requires h in AfterSampling(stored, afterPruning, afterSampling)
    ensures h in stored && afterPruning.Some? && h <= afterPruning.value
    ensures afterSampling.Some? && h <= afterSampling.value
  {}

  lemma OneMore(s: set<u64>, h: u64)
    ensures |s + {h}| <= |s| + 1
  {}

  lemma TopFits(top: set<u64>, all: set<u64>, limit: u64)
    requires IsTop(top, all, limit)
    ensures |top| <= limit
  {}

  /** Everything of `all` above `rest` was decided: `added` are the ones that may go. */
  ghost predicate Filling(added: set<u64>, all: set<u64>, rest: set<u64>, sampled: set<u64>,
                          permits: u64 -> bool, asked: set<u64>) {
    && 0 !in all && rest <= all && Below(rest, all - rest)
    && added <= all - rest
    && (forall h :: h in all - rest ==> (h in added <==> h in sampled || permits(h)))
    && asked == (all - rest) - sampled
  }

  lemma FillStart(all: set<u64>, sampled: set<u64>, permits: u64 -> bool)
    requires 0 !in all
    ensures Filling({}, all, all, sampled, permits, {})
  {}

  lemma FillStep(added: set<u64>, all: set<u64>, rest: set<u64>, h: u64, sampled: set<u64>,
                 permits: u64 -> bool, asked: set<u64>)
    requires Filling(added, all, rest + {h}, sampled, permits, asked) && Below(rest, {h})
    ensures 0 < h
    ensures var added' := if h in sampled || permits(h) then added + {h} else added;
            var asked' := if h in sampled then asked else asked + {h};
            Filling(added', all, rest, sampled, permits, asked')
  {
    assert h in rest + {h} && h in {h};
    assert h !in rest;
    assert all - rest == (all - (rest + {h})) + {h};
    ExtendAbove(rest, h, all - (rest + {h}));
  }

  lemma FillEnd(top: set<u64>, added: set<u64>, free: set<u64>, all: set<u64>, rest: set<u64>, sampled: set<u64>,
                permits: u64 -> bool, asked: set<u64>)
    requires Filling(added, all, rest, sampled, permits, asked)
    requires IsTop(top, free, MAX_PRUNABLE_BATCH_SIZE) && free !! all
    requires |top + added| <= MAX_PRUNABLE_BATCH_SIZE
    requires rest == {} || |top + added| == MAX_PRUNABLE_BATCH_SIZE
    ensures IsBatch(top + added, free, all, sampled, permits, asked)
  {
    assert (top + added) * free == top && (top + added) * all == added;
  }
}
