/** The data availability sampler: what it samples next and what it lets the pruner remove. */
module DaserModel {
  import opened BlockRangeExt
  import opened RangeLists
  import opened BlockRangeSets
  import opened StoreModel

  const PRUNER_THRESHOLD: u64 := 512

  datatype Config = Config(concurrencyLimit: nat, additionalHeaderSubConcurrency: nat)

  /** What the worker knows. `futs` are the running samplings with the CIDs they fetch. */
  datatype DaserState = DaserState(
    queue: set<u64>,
    timedOut: set<u64>,
    ongoing: set<u64>,
    willBePruned: set<u64>,
    futs: map<u64, set<Cid>>,
    headHeight: Option<u64>,
    highestPrunableHeight: Option<u64>,
    numOfPrunableBlocks: u64,
    config: Config)

  ghost predicate IsHighest(all: set<u64>, h: u64) {
    h in all && forall x :: x in all ==> x <= h
  }

  ghost predicate IsHead(all: set<u64>, head: Option<u64>) {
    if all == {} then head == None else head.Some? && IsHighest(all, head.value)
  }

  function UnwrapOr0(h: Option<u64>): u64 { if h.Some? then h.value else 0 }

  /** How many samplings may run when `height` is up next. */
  function Limit(height: u64, headHeight: Option<u64>, highestPrunableHeight: Option<u64>,
                 numOfPrunableBlocks: u64, config: Config): nat {
    if height <= UnwrapOr0(highestPrunableHeight) && numOfPrunableBlocks >= PRUNER_THRESHOLD then 0
    else if height == UnwrapOr0(headHeight) then
      config.concurrencyLimit + config.additionalHeaderSubConcurrency
    else config.concurrencyLimit
  }

  /** Another sampling may start for `height`. */
  predicate HasRoom(d: DaserState, height: u64) {
    |d.futs| < Limit(height, d.headHeight, d.highestPrunableHeight, d.numOfPrunableBlocks, d.config)
  }

  datatype Pop = Empty | Paused | Popped(height: u64)

  /** `WantToPrune`: yes unless the height is being sampled, and then it is never sampled again. */
  ghost predicate AnswersWantToPrune(d: DaserState, height: u64, allowed: bool, d': DaserState) {
    && allowed == (height !in d.ongoing)
    && d' == if allowed then d.(queue := d.queue - {height}, willBePruned := d.willBePruned + {height}) else d
  }

  /** `update_queue`, once both ranges were read. */
  ghost predicate UpdatesQueue(d: DaserState, stored: set<u64>, sampled: set<u64>, d': DaserState) {
    && IsHead(stored, d'.headHeight)
    && d' == d.(queue := stored - sampled - d.timedOut - d.ongoing - d.willBePruned, headHeight := d'.headHeight)
  }

  /** The start of `schedule_next_sample_block`: take the highest height, or leave the queue as it was. */
  ghost predicate Pops(d: DaserState, pop: Pop, d': DaserState) {
    match pop
    case Empty => d.queue == {} && d' == d
    case Paused => d' == d && exists h :: IsHighest(d.queue, h) && !HasRoom(d, h)
    case Popped(h) => IsHighest(d.queue, h) && HasRoom(d, h) && d' == d.(queue := d.queue - {h})
  }

  /** The popped height is too old: nothing at or below it will be sampled. */
  ghost predicate GivesUpBelow(d: DaserState, height: u64, d': DaserState) {
    var tooOld := BlockRange(1, height).Span();
    d' == d.(queue := d.queue - tooOld, timedOut := d.timedOut + tooOld)
  }

  ghost predicate StartsSampling(d: DaserState, height: u64, cids: set<Cid>, d': DaserState) {
    d' == d.(futs := d.futs[height := cids], ongoing := d.ongoing + {height})
  }

  /** The sampling of `height` ended. */
  ghost predicate DropsFuture(d: DaserState, height: u64, d': DaserState) {
    height in d.futs && d' == d.(futs := d.futs - {height})
  }

  /** The sampling of `height` did not get all its samples in time. */
  ghost predicate TimesOut(d: DaserState, height: u64, d': DaserState) {
    d' == d.(timedOut := d.timedOut + {height}, ongoing := d.ongoing - {height})
  }

  /** The sampling of `height` ended and the store knows. */
  ghost predicate Finishes(d: DaserState, height: u64, d': DaserState) {
    d' == d.(ongoing := d.ongoing - {height})
  }

  ghost predicate Disconnects(d: DaserState, d': DaserState) {
    d' == d.(futs := map[], queue := {}, ongoing := {}, timedOut := {}, headHeight := None)
  }

  /** The worker's fields. Each set of heights is a `BlockRanges` of its own. */
  class Worker {
    const queue: BlockRanges
    const timedOut: BlockRanges
    const ongoing: BlockRanges
    const willBePruned: BlockRanges
    const config: Config
    var futs: map<u64, set<Cid>>
    var headHeight: Option<u64>
    var highestPrunableHeight: Option<u64>
    var numOfPrunableBlocks: u64

    ghost predicate Valid()
      reads this, queue, timedOut, ongoing, willBePruned
    {
      && queue != timedOut && queue != ongoing && queue != willBePruned
      && timedOut != ongoing && timedOut != willBePruned && ongoing != willBePruned
      && Canonical(queue.ranges) && Canonical(timedOut.ranges)
      && Canonical(ongoing.ranges) && Canonical(willBePruned.ranges)
    }

    ghost function View(): DaserState
      reads this, queue, timedOut, ongoing, willBePruned
    {
      DaserState(queue.Contents(), timedOut.Contents(), ongoing.Contents(), willBePruned.Contents(),
                 futs, headHeight, highestPrunableHeight, numOfPrunableBlocks, config)
    }

    constructor (config: Config)
      ensures Valid() && fresh(queue) && fresh(timedOut) && fresh(ongoing) && fresh(willBePruned)
      ensures View() == DaserState({}, {}, {}, {}, map[], None, None, 0, config)
    {
      queue := new BlockRanges();
      timedOut := new BlockRanges();
      ongoing := new BlockRanges();
      willBePruned := new BlockRanges();
      this.config := config;
      futs, headHeight, highestPrunableHeight, numOfPrunableBlocks := map[], None, None, 0;
      new;
      HeightsEmpty();
    }

    method OnWantToPrune(height: u64) returns (allowed: bool)
      requires Valid() && 0 < height
      modifies queue, willBePruned
      ensures Valid() && AnswersWantToPrune(old(View()), height, allowed, View())
      ensures allowed <==> height !in ongoing.Contents()
      ensures allowed ==> height !in queue.Contents() && height in willBePruned.Contents()
      ensures forall h :: h != height || !allowed ==>
                && (h in queue.Contents() <==> h in old(queue.Contents()))
                && (h in willBePruned.Contents() <==> h in old(willBePruned.Contents()))
    {
      hide Heights;
      SingleSpan(height);
      var sampling := ongoing.Contains(height);
      if sampling { return false; }
      var res := queue.RemoveRelaxed(BlockRange(height, height));
      assert res.Ok?;
      res := willBePruned.InsertRelaxed(BlockRange(height, height));
      assert res.Ok?;
      allowed := true;
    }

    method UpdateQueue(stored: BlockRanges, sampled: BlockRanges)
      requires Valid() && Canonical(stored.ranges) && Canonical(sampled.ranges)
      requires stored !in {queue, timedOut, ongoing, willBePruned} && sampled != queue
      modifies this`headHeight, queue
      ensures Valid() && UpdatesQueue(old(View()), stored.Contents(), sampled.Contents(), View())
      ensures forall h :: h in queue.Contents() <==>
                && h in stored.Contents() && h !in sampled.Contents() && h !in timedOut.Contents()
                && h !in ongoing.Contents() && h !in willBePruned.Contents()
      ensures headHeight.None? <==> stored.Contents() == {}
      ensures headHeight.Some? ==>
                headHeight.value in stored.Contents() && forall h :: h in stored.Contents() ==> h <= headHeight.value
    {
      hide Heights;
      headHeight := stored.Head();
      var next := new BlockRanges.Clone(stored);
      next.SubAssign(sampled);
      next.SubAssign(timedOut);
      next.SubAssign(ongoing);
      next.SubAssign(willBePruned);
      queue.ranges := next.ranges;
    }

    /** Pops the highest height. If the limit is reached it is put back, and the queue is the same list as before. */
    method PopNext() returns (pop: Pop)
      requires Valid()
      modifies queue
      ensures Valid() && Pops(old(View()), pop, View())
      ensures !pop.Popped? ==> queue.ranges == old(queue.ranges)
      ensures pop.Empty? <==> old(queue.Contents()) == {}
      ensures forall h: u64 :: IsHighest(old(queue.Contents()), h) ==>
                (pop == Popped(h) <==>
                 && !(highestPrunableHeight.Some? && h <= highestPrunableHeight.value && numOfPrunableBlocks >= 512)
                 && |futs| < config.concurrencyLimit +
                             (if headHeight == Some(h) then config.additionalHeaderSubConcurrency else 0))
    {
      hide Heights;
      HeightsEmpty();
      ghost var before := queue.ranges;
      ghost var d := View();
      ZeroIsNoMember(before);
      var head := queue.PopHead();
      if head.None? { return Empty; }
      var height := head.value;
      IsHighestIfBelow(queue.Contents(), height, Heights(before));
      if |futs| >= Limit(height, headHeight, highestPrunableHeight, numOfPrunableBlocks, config) {
        SingleSpan(height);
        var res := queue.InsertRelaxed(BlockRange(height, height));
        assert res.Ok?;
        assert queue.Contents() == Heights(before);
        CanonicalUnique(queue.ranges, before);
        PopRule(d, Paused, View(), height);
        return Paused;
      }
      pop := Popped(height);
      PopRule(d, pop, View(), height);
    }

    /** The popped height is outside the sampling window: so is everything below it. */
    method GiveUpBelow(height: u64)
      requires Valid() && 0 < height
      modifies queue, timedOut
      ensures Valid() && GivesUpBelow(old(View()), height, View())
      ensures forall h: u64 :: h in queue.Contents() <==> h in old(queue.Contents()) && height < h
      ensures forall h: u64 :: h in timedOut.Contents() <==> h in old(timedOut.Contents()) || 1 <= h <= height
    {
      hide Heights;
      ZeroIsNoMember(queue.ranges);
      var res := queue.RemoveRelaxed(BlockRange(1, height));
      assert res.Ok?;
      res := timedOut.InsertRelaxed(BlockRange(1, height));
      assert res.Ok?;
    }

    method StartSampling(height: u64, cids: set<Cid>)
      requires Valid() && 0 < height
      modifies this`futs, ongoing
      ensures Valid() && StartsSampling(old(View()), height, cids, View())
      ensures futs == old(futs)[height := cids] && ongoing.Contents() == old(ongoing.Contents()) + {height}
    {
      hide Heights;
      SingleSpan(height);
      futs := futs[height := cids];
      var res := ongoing.InsertRelaxed(BlockRange(height, height));
      assert res.Ok?;
    }

    /** `select!` yields the result of one running sampling. */
    method TakeFuture(height: u64)
      requires Valid() && height in futs
      modifies this`futs
      ensures Valid() && DropsFuture(old(View()), height, View())
    {
      futs := futs - {height};
    }

    method MarkTimedOut(height: u64)
      requires Valid() && 0 < height
      modifies timedOut, ongoing
      ensures Valid() && TimesOut(old(View()), height, View())
      ensures timedOut.Contents() == old(timedOut.Contents()) + {height}
      ensures ongoing.Contents() == old(ongoing.Contents()) - {height}
    {
      hide Heights;
      SingleSpan(height);
      var res := timedOut.InsertRelaxed(BlockRange(height, height));
      assert res.Ok?;
      res := ongoing.RemoveRelaxed(BlockRange(height, height));
      assert res.Ok?;
    }

    /** After the store marked the block as sampled. */
    method Finish(height: u64)
      requires Valid() && 0 < height
      modifies ongoing
      ensures Valid() && Finishes(old(View()), height, View())
      ensures ongoing.Contents() == old(ongoing.Contents()) - {height}
    {
      hide Heights;
      SingleSpan(height);
      var res := ongoing.RemoveRelaxed(BlockRange(height, height));
      assert res.Ok?;
    }

    /** All peers are gone. Only `willBePruned` and the pruner's two values survive. */
    method Disconnect()
      requires Valid()
      modifies this, queue, ongoing, timedOut
      ensures Valid() && Disconnects(old(View()), View())
      ensures queue.Contents() == ongoing.Contents() == timedOut.Contents() == {} && futs == map[] && headHeight == None
      ensures highestPrunableHeight == old(highestPrunableHeight) && numOfPrunableBlocks == old(numOfPrunableBlocks)
    {
      HeightsEmpty();
      futs, headHeight := map[], None;
      queue.ranges, ongoing.ranges, timedOut.ranges := [], [], [];
    }
  }

  /**
   * The highest queued height is taken exactly when the pruner has no backlog that reaches up to it and
   * fewer samplings run than are allowed; only the head may use the additional ones.
   */
  lemma PopRule(d: DaserState, pop: Pop, d': DaserState, h: u64)
    requires Pops(d, pop, d') && IsHighest(d.queue, h) && 0 < h
    ensures pop == Popped(h) <==>
            && !(d.highestPrunableHeight.Some? && h <= d.highestPrunableHeight.value && d.numOfPrunableBlocks >= 512)
            && |d.futs| < d.config.concurrencyLimit +
                          (if d.headHeight == Some(h) then d.config.additionalHeaderSubConcurrency else 0)
  {}

  lemma IsHighestIfBelow(rest: set<u64>, h: u64, all: set<u64>)
    requires h in all && rest == all - {h} && Below(rest, {h})
    ensures IsHighest(all, h) && all == rest + {h}
  {
    forall x | x in all
      ensures x <= h
    {
      assert x != h ==> x in rest && h in {h};
    }
  }
}
