/** The sampler forgets no header. */
module NodeCoverage {
  import opened BlockRangeExt
  import opened BlockRangeSets
  import opened DaserModel
  import opened StoreModel
  import opened NodeProtocol
  import opened NodeSafety

  /**
   * The sampler knows what to do about the stored height `h`: it is queued, taken, being sampled, sampled,
   * timed out or given away.
   */
  ghost predicate IsCovered(n: Node, h: u64) {
    var d := n.daser;
    || h in d.queue || h in Taken(n.dpc) || h in d.ongoing || h in n.store.sampled
    || h in d.timedOut || h in d.willBePruned
  }

  ghost predicate CoverInv(n: Node, h: u64) {
    && IsCovered(n, h)
    && (n.dpc.DReading? ==> h in n.dpc.stored)
    && (n.dpc.DMarked? && n.dpc.height == h ==> h in n.store.sampled)
  }

  lemma QueueingCovers(n: Node, step: Step, n': Node, h: u64)
    requires DaserStep(n, step, n') && step.ReadSampledForQueue? && h in n.dpc.stored
    ensures CoverInv(n', h)
  {
    hide IsHead;
  }

  lemma SchedulingCovers(n: Node, step: Step, n': Node, h: u64)
    requires DaserStep(n, step, n') && IsScheduling(step) && !step.Disconnect?
    requires CoverInv(n, h) && 0 < h && h in n.store.stored
    ensures CoverInv(n', h)
  {
    hide IsHead, IsHighest, HasRoom;
  }

  lemma WorkingCovers(n: Node, step: Step, n': Node, h: u64)
    requires DaserStep(n, step, n') && !IsScheduling(step) && CoverInv(n, h) && h in n.store.stored
    ensures CoverInv(n', h)
  {}

  lemma PruningCovers(n: Node, step: Step, n': Node, h: u64)
    requires PrunerStep(n, step, n') && CoverInv(n, h) && h in n'.store.stored
    ensures CoverInv(n', h)
  {
    hide PrunerStep;
    PrunerFrame(n, step, n');
    if step.PrunerRemovesHeader? {
      RemovalFrame(n, step, n');
    }
  }

  lemma SyncingCovers(n: Node, step: Step, n': Node, h: u64)
    requires SyncerStep(n, step, n') && CoverInv(n, h) && h in n.store.stored
    ensures CoverInv(n', h)
  {
    hide SyncerStep;
    var range := SyncerFrame(n, step, n');
  }

  lemma StepCovers(n: Node, step: Step, n': Node, h: u64)
    requires Next(n, step, n') && !step.Disconnect? && CoverInv(n, h) && 0 < h
    requires h in n.store.stored && h in n'.store.stored
    ensures CoverInv(n', h)
  {
    hide DaserStep, PrunerStep, SyncerStep, CoverInv;
    if DaserStep(n, step, n') {
      if IsScheduling(step) {
        SchedulingCovers(n, step, n', h);
      } else {
        WorkingCovers(n, step, n', h);
      }
    } else if PrunerStep(n, step, n') {
      PruningCovers(n, step, n', h);
    } else {
      SyncingCovers(n, step, n', h);
    }
  }
}
