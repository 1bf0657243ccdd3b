/** What every interleaving of syncer, sampler and pruner keeps. */
module NodeSafety {
  import opened BlockRangeExt
  import opened RangeLists
  import opened BlockRangeSets
  import opened SyncerFetch
  import opened PrunerWindow
  import opened PrunerBatch
  import opened DaserModel
  import opened StoreModel
  import opened NodeProtocol

  /** Heights the sampler holds between taking them from the queue and sampling them. */
  function Taken(pc: DaserPc): set<u64> {
    if pc.DPopped? || pc.DFound? || pc.DRecorded? then {pc.height} else {}
  }

  /** Heights whose sampling is over but that are still listed as ongoing. */
  function Ending(pc: DaserPc): set<u64> {
    if pc.DMarking? || pc.DMarked? then {pc.height} else {}
  }

  /** Heights the pruner has decided to remove. */
  function Pending(pc: PrunerPc): set<u64> {
    match pc
    case PPicking(_, batch, _, _) => batch
    case PAsking(_, batch, _, _, _) => batch
    case PAnswered(_, batch, _, _, height, allowed) => if allowed then batch + {height} else batch
    case PRemoving(batch) => batch
    case PDeleting(height, _, batch) => batch + {height}
    case _ => {}
  }

  /** Heights outside the sampling window that the pruner has yet to decide about. */
  function Undecided(pc: PrunerPc): set<u64> {
    match pc
    case PPicking(_, _, rest, _) => rest
    case PAsking(_, _, rest, _, height) => rest + {height}
    case PAnswered(_, _, rest, _, height, _) => rest + {height}
    case _ => {}
  }

  /** What the sampler may touch is neither sampled nor given away, and what it samples is stored. */
  ghost predicate SamplerInv(n: Node) {
    var d := n.daser;
    && n.store.sampled <= n.store.stored
    && n.dpc != DDead
    // the queue
    && d.queue !! n.store.sampled && d.queue !! d.willBePruned && d.queue !! d.ongoing && d.queue !! d.timedOut
    && d.queue !! Taken(n.dpc)
    // one future per ongoing height
    && d.ongoing == d.futs.Keys + Ending(n.dpc) && d.futs.Keys !! Ending(n.dpc)
    && Taken(n.dpc) !! d.ongoing
    // nothing given away is touched again
    && d.willBePruned !! d.ongoing && d.willBePruned !! Taken(n.dpc)
    // what is sampled stays stored and unsampled until it ends
    && d.futs.Keys <= n.store.stored && d.futs.Keys !! n.store.sampled
    && Taken(n.dpc) !! n.store.sampled
    && (n.dpc.DFound? || n.dpc.DRecorded? ==> n.dpc.height in n.store.stored)
    && (n.dpc.DMarking? ==> n.dpc.height in n.store.stored - n.store.sampled)
  }

  /** What the pruner will remove is stored, and sampled or given away. */
  ghost predicate PrunerInv(n: Node) {
    && n.pruner != PDead
    && Pending(n.pruner) <= n.store.stored
    && Pending(n.pruner) <= n.store.sampled + n.daser.willBePruned
    && Undecided(n.pruner) <= n.store.stored
    && (n.pruner.PReadStored? || n.pruner.PReadPruned? || n.pruner.PReadSampled? ==> n.pruner.stored <= n.store.stored)
    && (n.pruner.PReadPruned? || n.pruner.PReadSampled? ==> n.pruner.pruned <= Synced(n.store))
    && (n.pruner.PReadSampled? ==> n.pruner.sampled <= n.store.sampled)
    && (n.pruner.PPicking? || n.pruner.PAsking? || n.pruner.PAnswered? ==> n.pruner.pick.sampled <= n.store.sampled)
    && (n.pruner.PDeleting? ==> n.pruner.height !in n.pruner.batch)
  }

  ghost predicate Handshake(n: Node) {
    SamplerInv(n) && PrunerInv(n)
  }

  lemma ReadingKeepsSamplerInv(n: Node, step: Step, n': Node)
    requires Handshake(n) && DaserStep(n, step, n') && (step.ReadSampledForQueue? || step.Answer?)
    ensures SamplerInv(n')
  {}

  lemma PoppingKeepsSamplerInv(n: Node, step: Step, n': Node)
    requires Handshake(n) && DaserStep(n, step, n') && (step.PopQueue? || step.GetByHeight?)
    ensures SamplerInv(n')
  {
    hide HasRoom, PrunerInv, BlockRange.Span;
  }

  lemma SamplingKeepsSamplerInv(n: Node, step: Step, n': Node)
    requires Handshake(n) && DaserStep(n, step, n')
    requires step.RecordCids? || step.SamplingStarts? || step.SamplingEnds? || step.MarkSampled? || step.FinishSampling?
    ensures SamplerInv(n')
  {}

  lemma DaserKeepsSamplerInv(n: Node, step: Step, n': Node)
    requires Handshake(n) && DaserStep(n, step, n')
    ensures SamplerInv(n')
  {
    if step.ReadSampledForQueue? || step.Answer? {
      ReadingKeepsSamplerInv(n, step, n');
    } else if step.PopQueue? || step.GetByHeight? {
      PoppingKeepsSamplerInv(n, step, n');
    } else if step.RecordCids? || step.SamplingStarts? || step.SamplingEnds? || step.MarkSampled? || step.FinishSampling? {
      SamplingKeepsSamplerInv(n, step, n');
    }
  }

  /** Steps in which the sampler only decides what to do next. */
  predicate IsScheduling(step: Step) {
    || step.Connect? || step.Disconnect? || step.NewHead? || step.Wake? || step.PrunerValues?
    || step.ReadStoredForQueue? || step.ReadSampledForQueue? || step.PopQueue? || step.GetByHeight?
  }

  lemma SchedulingFrame(n: Node, step: Step, n': Node)
    requires DaserStep(n, step, n') && IsScheduling(step)
    ensures n' == n.(daser := n'.daser, dpc := n'.dpc, connected := n'.connected)
    ensures n'.daser.willBePruned == n.daser.willBePruned && n'.daser.config == n.daser.config
    ensures n'.daser.futs == (if step.Disconnect? then map[] else n.daser.futs) && !n'.dpc.DRecorded?
  {
    hide IsHead, HasRoom, BlockRange.Span, IsHighest;
  }

  lemma WorkingFrame(n: Node, step: Step, n': Node)
    requires DaserStep(n, step, n') && !IsScheduling(step)
    ensures n'.store.stored == n.store.stored && n'.store.pruned == n.store.pruned
    ensures n.store.sampled <= n'.store.sampled && n.daser.willBePruned <= n'.daser.willBePruned
    ensures n'.syncer == n.syncer && n'.bound == n.bound && n'.daser.config == n.daser.config
    ensures step.Answer? || n'.pruner == n.pruner
  {}

  /** What the sampler leaves alone. */
  lemma DaserFrame(n: Node, step: Step, n': Node)
    requires DaserStep(n, step, n')
    ensures n'.store.stored == n.store.stored && n'.store.pruned == n.store.pruned
    ensures n.store.sampled <= n'.store.sampled && n.daser.willBePruned <= n'.daser.willBePruned
    ensures n'.syncer == n.syncer && n'.bound == n.bound && n'.daser.config == n.daser.config
    ensures step.Answer? || n'.pruner == n.pruner
  {
    hide DaserStep;
    if IsScheduling(step) {
      SchedulingFrame(n, step, n');
    } else {
      WorkingFrame(n, step, n');
    }
  }

  lemma DaserKeepsPrunerInv(n: Node, step: Step, n': Node)
    requires Handshake(n) && DaserStep(n, step, n')
    ensures PrunerInv(n')
  {
    DaserFrame(n, step, n');
    if step.Answer? {
      hide SamplerInv;
    } else {
      hide DaserStep, SamplerInv;
    }
  }

  lemma PrunerKeepsSamplerInv(n: Node, step: Step, n': Node)
    requires Handshake(n) && PrunerStep(n, step, n')
    ensures SamplerInv(n')
  {
    hide IsTop, PrunableAndSampled, AfterSampling, IsHighest;
  }

  /** What the pruner may choose from was stored when it looked, and the free part was sampled. */
  lemma PickedBlocks(stored: set<u64>, pruned: set<u64>, sampled: set<u64>,
                     afterPruning: Option<u64>, afterSampling: Option<u64>, batch: set<u64>)
    requires IsTop(batch, PrunableAndSampled(stored, pruned, sampled, afterPruning, afterSampling), MAX_PRUNABLE_BATCH_SIZE)
    ensures batch <= stored && batch <= sampled
    ensures AfterSampling(stored, afterPruning, afterSampling) <= stored
  {}

  lemma TakingFrame(n: Node, step: Step, n': Node)
    requires PrunerStep(n, step, n') && step.PrunerTakes?
    ensures n.pruner.PPicking? && |n.pruner.batch| < MAX_PRUNABLE_BATCH_SIZE && IsHighest(n.pruner.rest, step.height)
    ensures var p, h := n.pruner, step.height;
            n' == n.(pruner := if h in p.pick.sampled then PPicking(p.pick, p.batch + {h}, p.rest - {h}, p.granted)
                               else PAsking(p.pick, p.batch, p.rest - {h}, p.granted, h))
  {}

  lemma HearingFrame(n: Node, step: Step, n': Node)
    requires PrunerStep(n, step, n') && step.PrunerHears?
    ensures n.pruner.PAnswered?
    ensures var p := n.pruner;
            var more := if p.allowed then {p.height} else {};
            n' == n.(pruner := PPicking(p.pick, p.batch + more, p.rest, p.granted + more))
  {}

  lemma PickingFrame(n: Node, step: Step, n': Node)
    requires PrunerStep(n, step, n') && step.PrunerPicks?
    ensures n.pruner.PReadSampled?
    ensures var p := n.pruner;
            var pick := Pick(p.stored, p.pruned, p.sampled, step.afterPruning, step.afterSampling);
            && IsTop(step.batch, pick.Free(), MAX_PRUNABLE_BATCH_SIZE)
            && n' == n.(bound := step.afterSampling, pruner := PPicking(pick, step.batch, pick.Guarded(), {}))
  {}

  lemma PickingKeepsPrunerInv(n: Node, step: Step, n': Node)
    requires PrunerInv(n) && PrunerStep(n, step, n') && step.PrunerPicks?
    ensures PrunerInv(n')
  {
    hide PrunerStep, IsTop, PrunableAndSampled, AfterSampling;
    PickingFrame(n, step, n');
    PickedBlocks(n.pruner.stored, n.pruner.pruned, n.pruner.sampled, step.afterPruning, step.afterSampling, step.batch);
  }

  lemma DecidingKeepsPrunerInv(n: Node, step: Step, n': Node)
    requires PrunerInv(n) && PrunerStep(n, step, n') && (step.PrunerTakes? || step.PrunerHears?)
    ensures PrunerInv(n')
  {
    hide PrunerStep, Pick.Free, Pick.Guarded;
    if step.PrunerTakes? {
      TakingFrame(n, step, n');
    } else {
      HearingFrame(n, step, n');
      assert Pending(n'.pruner) == Pending(n.pruner);
    }
  }

  lemma RemovingKeepsPrunerInv(n: Node, step: Step, n': Node)
    requires PrunerInv(n) && PrunerStep(n, step, n') && !step.PrunerPicks? && !step.PrunerTakes? && !step.PrunerHears?
    ensures PrunerInv(n')
  {
    if step.PrunerReadsStored? || step.PrunerReadsPruned? || step.PrunerReadsSampled? {
      ReadingKeepsPrunerInv(n, step, n');
    } else if step.PrunerReadsCids? || step.PrunerRemovesHeader? {
      RemovalKeepsPrunerInv(n, step, n');
    }
  }

  lemma ReadingKeepsPrunerInv(n: Node, step: Step, n': Node)
    requires PrunerInv(n) && PrunerStep(n, step, n')
    requires step.PrunerReadsStored? || step.PrunerReadsPruned? || step.PrunerReadsSampled?
    ensures PrunerInv(n')
  {}

  lemma RemovalKeepsPrunerInv(n: Node, step: Step, n': Node)
    requires PrunerInv(n) && PrunerStep(n, step, n') && (step.PrunerReadsCids? || step.PrunerRemovesHeader?)
    ensures PrunerInv(n')
  {}

  lemma PrunerKeepsPrunerInv(n: Node, step: Step, n': Node)
    requires PrunerInv(n) && PrunerStep(n, step, n')
    ensures PrunerInv(n')
  {
    hide PrunerInv, PrunerStep;
    if step.PrunerPicks? {
      PickingKeepsPrunerInv(n, step, n');
    } else if step.PrunerTakes? || step.PrunerHears? {
      DecidingKeepsPrunerInv(n, step, n');
    } else {
      RemovingKeepsPrunerInv(n, step, n');
    }
  }

  lemma SyncerKeepsHandshake(n: Node, step: Step, n': Node)
    requires Handshake(n) && SyncerStep(n, step, n')
    ensures Handshake(n')
  {}

  /** What the pruner leaves alone. */
  lemma PrunerFrame(n: Node, step: Step, n': Node)
    requires PrunerStep(n, step, n')
    ensures n'.daser == n.daser && n'.dpc == n.dpc && n'.syncer == n.syncer
    ensures n'.store.stored <= n.store.stored && Synced(n.store) <= Synced(n'.store)
    ensures !Less(n'.bound, n.bound)
    ensures step.PrunerPicks? || n'.bound == n.bound
    ensures !step.PrunerRemovesHeader? ==> n'.store == n.store
  {
    hide IsTop, PrunableAndSampled, AfterSampling, IsHighest;
  }

  lemma RemovalFrame(n: Node, step: Step, n': Node)
    requires PrunerStep(n, step, n') && step.PrunerRemovesHeader?
    ensures n.pruner.PDeleting? && (n'.store == n.store || n'.store == Removed(n.store, n.pruner.height))
  {}

  /** The syncer only ever inserts an insertable range. */
  lemma SyncerFrame(n: Node, step: Step, n': Node) returns (range: Option<BlockRange>)
    requires SyncerStep(n, step, n')
    ensures n' == n.(store := n'.store, syncer := n'.syncer)
    ensures range.None? ==> n'.store == n.store
    ensures range.Some? ==> Insertable(n.store.stored, range.value) && n'.store == Inserted(n.store, range.value)
  {
    hide Insertable, CalculateRangeToFetch, Inserted;
    match step
    case SyncerInserts(verified) =>
      range := if verified && Insertable(n.store.stored, n.syncer.range) then Some(n.syncer.range) else None;
    case HeaderSubInserts(verified) =>
      var one := BlockRange(n.syncer.height, n.syncer.height);
      range := if verified && Insertable(n.store.stored, one) then Some(one) else None;
    case InitInserts(height) =>
      range := Some(BlockRange(height, height));
    case _ =>
      range := None;
  }

  // ---- Edges ----

  predicate AboveBound(bound: Option<u64>, h: int) { bound.None? || bound.value < h }

  /**
   * Every edge of what is synced is still stored, unless it fell out of the sampling window;
   * and the pruner will not remove any other edge.
   */
  ghost predicate EdgeInv(n: Node) {
    && (forall h: u64 :: IsEdge(Synced(n.store), h) && AboveBound(n.bound, h) ==> h in n.store.stored)
    && (forall h: u64 :: h in Pending(n.pruner) && AboveBound(n.bound, h) ==> !IsEdge(Synced(n.store), h))
    && (forall h: u64 :: h in Undecided(n.pruner) ==> !AboveBound(n.bound, h))
  }

  lemma DaserKeepsEdgeInv(n: Node, step: Step, n': Node)
    requires EdgeInv(n) && DaserStep(n, step, n')
    ensures EdgeInv(n')
  {
    hide IsEdge, IsHighest, HasRoom, IsHead;
    DaserFrame(n, step, n');
  }

  lemma SyncerKeepsEdgeInv(n: Node, step: Step, n': Node)
    requires EdgeInv(n) && PrunerInv(n) && SyncerStep(n, step, n')
    ensures EdgeInv(n')
  {}

  /** A chosen block is no edge of what was synced then, so it is none now; an undecided one is below the bound. */
  lemma PickedEdges(stored: set<u64>, pruned: set<u64>, sampled: set<u64>, afterPruning: Option<u64>,
                    afterSampling: Option<u64>, batch: set<u64>, synced: set<u64>, h: u64)
    requires IsTop(batch, PrunableAndSampled(stored, pruned, sampled, afterPruning, afterSampling), MAX_PRUNABLE_BATCH_SIZE)
    requires stored + pruned <= synced
    ensures h in batch ==> !IsEdge(synced, h)
    ensures h in AfterSampling(stored, afterPruning, afterSampling) ==> !AboveBound(afterSampling, h)
  {}

  lemma PickKeepsEdgeInv(n: Node, step: Step, n': Node)
    requires EdgeInv(n) && PrunerInv(n) && PrunerStep(n, step, n') && step.PrunerPicks?
    ensures EdgeInv(n')
  {
    hide IsEdge, IsTop, PrunableAndSampled, AfterSampling;
    forall h: u64
      ensures h in step.batch ==> !IsEdge(Synced(n.store), h)
      ensures h in AfterSampling(n.pruner.stored, step.afterPruning, step.afterSampling) ==> !AboveBound(step.afterSampling, h)
    {
      PickedEdges(n.pruner.stored, n.pruner.pruned, n.pruner.sampled, step.afterPruning, step.afterSampling,
                  step.batch, Synced(n.store), h);
    }
  }

  lemma RemovalKeepsEdgeInv(n: Node, step: Step, n': Node)
    requires EdgeInv(n) && PrunerInv(n) && PrunerStep(n, step, n') && step.PrunerRemovesHeader?
    ensures EdgeInv(n')
  {
    hide IsEdge;
    assert n.pruner.height in Pending(n.pruner);
    assert Synced(n'.store) == Synced(n.store);
  }

  lemma PrunerKeepsEdgeInv(n: Node, step: Step, n': Node)
    requires EdgeInv(n) && PrunerInv(n) && PrunerStep(n, step, n')
    ensures EdgeInv(n')
  {
    hide IsEdge, PrunerStep, PrunerInv;
    if step.PrunerPicks? {
      PickKeepsEdgeInv(n, step, n');
    } else if step.PrunerRemovesHeader? {
      RemovalKeepsEdgeInv(n, step, n');
    } else {
      PrunerFrame(n, step, n');
      DecidingFrame(n, step, n');
    }
  }

  lemma OtherFrame(n: Node, step: Step, n': Node)
    requires PrunerStep(n, step, n') && !step.PrunerPicks? && !step.PrunerTakes? && !step.PrunerHears?
    ensures Pending(n'.pruner) <= Pending(n.pruner) && Undecided(n'.pruner) == {}
  {}

  /** Between two picks the pruner only decides about heights outside the sampling window. */
  lemma DecidingFrame(n: Node, step: Step, n': Node)
    requires PrunerStep(n, step, n') && !step.PrunerPicks?
    ensures Pending(n'.pruner) <= Pending(n.pruner) + Undecided(n.pruner)
    ensures Undecided(n'.pruner) <= Undecided(n.pruner)
  {
    hide PrunerStep;
    if step.PrunerTakes? {
      TakingFrame(n, step, n');
    } else if step.PrunerHears? {
      HearingFrame(n, step, n');
    } else {
      OtherFrame(n, step, n');
    }
  }
}
