/** The node's safety properties, over every run. */
module NodeTheorems {
  import opened BlockRangeExt
  import opened RangeLists
  import opened BlockRangeSets
  import opened SyncerFetch
  import opened PrunerWindow
  import opened PrunerBatch
  import opened DaserModel
  import opened StoreModel
  import opened NodeProtocol
  import opened NodeSafety
  import opened NodeSamples
  import opened NodeBatch
  import opened NodeCoverage
  import opened NodeProgress

  // ---- The batch that the syncer is fetching ----

  /** Above everything synced, unless header-sub was faster. */
  ghost predicate ForwardInv(synced: set<u64>, range: BlockRange) {
    range.Valid() && (range.start !in synced ==> forall h :: h in synced ==> h < range.start)
  }

  /** Below a synced height that the sampling window still covers, and not synced itself. */
  ghost predicate BackwardInv(synced: set<u64>, bound: Option<u64>, range: BlockRange) {
    && range.Valid() && range.end < U64_MAX
    && (AboveBound(bound, range.end + 1) ==> range.end + 1 in synced && synced !! range.Span())
  }

  ghost predicate FetchInv(n: Node, pc: SyncerPc) {
    match pc
    case SReadStored(stored) => n.store.stored <= stored <= Synced(n.store)
    case SFetching(range, forward) =>
      if forward then ForwardInv(Synced(n.store), range) else BackwardInv(Synced(n.store), n.bound, range)
    case SAnnouncing(height, back) =>
      && (back.SIdle? || back.SFetching?)
      && FetchInv(n, back)
      && (back.SFetching? && back.forward && back.range.start !in Synced(n.store) ==> height <= back.range.start)
      && (back.SFetching? && !back.forward && AboveBound(n.bound, back.range.end + 1) ==> back.range.end + 1 < height)
    case SIdle => true
  }

  /** A larger bound and the same synced heights ask for less. */
  lemma FetchInvFrame(n: Node, n': Node, pc: SyncerPc)
    requires FetchInv(n, pc) && n'.store.stored <= n.store.stored && Synced(n'.store) == Synced(n.store)
    requires !Less(n'.bound, n.bound)
    ensures FetchInv(n', pc)
    decreases pc
  {}

  lemma RemovedKeepsSynced(n: Node, step: Step, n': Node)
    requires PrunerStep(n, step, n')
    ensures Synced(n'.store) == Synced(n.store)
  {}

  /** Where the planned batch lies. */
  lemma PlannedBatch(head: u64, rs: seq<BlockRange>, limit: u64)
    requires Canonical(rs) && !CalculateRangeToFetch(head, rs, limit).IsEmpty()
    ensures var batch := CalculateRangeToFetch(head, rs, limit);
            if Top(rs) < head then ForwardInv(Heights(rs), batch) else BackwardInv(Heights(rs), None, batch)
  {}

  /** A missing neighbour makes a synced height an edge, so above the bound it is stored. */
  lemma UpperEndIsStored(n: Node, range: BlockRange)
    requires EdgeInv(n) && BackwardInv(Synced(n.store), n.bound, range) && AboveBound(n.bound, range.end + 1)
    ensures range.end + 1 in n.store.stored
  {
    assert range.end in range.Span();
    assert IsEdge(Synced(n.store), range.end + 1);
  }

  lemma AnnouncingKeepsFetchInv(n: Node, head: u64)
    requires EdgeInv(n) && FetchInv(n, n.syncer) && (n.syncer.SIdle? || n.syncer.SFetching?)
    requires IsHighest(n.store.stored, head) && head < U64_MAX
    ensures FetchInv(n, SAnnouncing(head + 1, n.syncer))
  {
    if n.syncer.SFetching? && !n.syncer.forward && AboveBound(n.bound, n.syncer.range.end + 1) {
      UpperEndIsStored(n, n.syncer.range);
    }
  }

  lemma AnnouncedKeepsFetchInv(n: Node, n': Node)
    requires n.syncer.SAnnouncing? && FetchInv(n, n.syncer)
    requires n'.bound == n.bound && Synced(n'.store) <= Synced(n.store) + {n.syncer.height}
    requires Synced(n.store) <= Synced(n'.store)
    ensures FetchInv(n', n.syncer.back)
  {}

  lemma InsertedSynced(s: Store, h: u64)
    ensures Synced(Inserted(s, BlockRange(h, h))) == Synced(s) + {h}
  {}

  lemma SyncerKeepsFetchInv(n: Node, step: Step, n': Node)
    requires EdgeInv(n) && FetchInv(n, n.syncer) && SyncerStep(n, step, n')
    ensures FetchInv(n', n'.syncer)
  {
    hide EdgeInv, Heights, CalculateRangeToFetch, Insertable, IsHighest, Canonical, ForwardInv, BackwardInv, Inserted;
    match step
    case SyncerPlans(head, limit, synced) =>
      assert n.store.pruned + n.syncer.stored == Synced(n.store);
      PlannedBatch(head, synced, limit);
      if Top(synced) >= head {
        LessBound(Synced(n.store), n.bound, n'.syncer.range);
      }
    case HeaderSubReads(head) =>
      AnnouncingKeepsFetchInv(n, head);
    case HeaderSubInserts(_) =>
      InsertedSynced(n.store, n.syncer.height);
      AnnouncedKeepsFetchInv(n, n');
    case _ =>
  }

  lemma LessBound(synced: set<u64>, bound: Option<u64>, range: BlockRange)
    requires BackwardInv(synced, None, range)
    ensures BackwardInv(synced, bound, range)
  {}

  // ---- How many samplings run at once ----

  function MostSamplings(n: Node): nat {
    n.daser.config.concurrencyLimit + n.daser.config.additionalHeaderSubConcurrency
  }

  predicate CountInv(n: Node) {
    |n.daser.futs| <= MostSamplings(n) && forall h :: h in Taken(n.dpc) ==> HasRoom(n.daser, h)
  }

  lemma DropSize(futs: map<u64, set<Cid>>, h: u64)
    ensures |futs - {h}| <= |futs|
  {}

  /** Only these steps change how many samplings run or whether one is about to start. */
  lemma CountFrame(n: Node, step: Step, n': Node)
    requires DaserStep(n, step, n') && !step.PopQueue? && !step.SamplingStarts? && !step.SamplingEnds? && !step.Disconnect?
    ensures n'.daser.futs == n.daser.futs && n'.daser.config == n.daser.config
    ensures Taken(n'.dpc) == {} || (Taken(n'.dpc) == Taken(n.dpc) && n'.daser == n.daser)
  {
    hide IsHead, IsHighest, HasRoom, BlockRange.Span;
    if IsScheduling(step) {
      SchedulingFrame(n, step, n');
    }
  }

  lemma DaserKeepsCountInv(n: Node, step: Step, n': Node)
    requires CountInv(n) && DaserStep(n, step, n')
    ensures CountInv(n')
  {
    if step.PopQueue? || step.SamplingStarts? || step.SamplingEnds? || step.Disconnect? {
      CountingKeepsCountInv(n, step, n');
    } else {
      hide DaserStep;
      CountFrame(n, step, n');
    }
  }

  lemma CountingKeepsCountInv(n: Node, step: Step, n': Node)
    requires CountInv(n) && DaserStep(n, step, n')
    requires step.PopQueue? || step.SamplingStarts? || step.SamplingEnds? || step.Disconnect?
    ensures CountInv(n')
  {
    hide DaserStep;
    if step.PopQueue? {
      PoppingFrame(n, step, n');
    } else {
      CountingFrame(n, step, n');
    }
    if step.SamplingEnds? {
      DropSize(n.daser.futs, step.height);
    } else if step.SamplingStarts? {
      assert n.dpc.height in Taken(n.dpc);
      AddSize(n.daser.futs, n.dpc.height, n.dpc.cids);
    }
  }

  lemma PoppingFrame(n: Node, step: Step, n': Node)
    requires DaserStep(n, step, n') && step.PopQueue?
    ensures n'.daser.config == n.daser.config && n'.daser.futs == n.daser.futs
    ensures n'.dpc.DIdle? || (n'.dpc.DPopped? && HasRoom(n'.daser, n'.dpc.height))
  {
    hide IsHighest;
  }

  lemma CountingFrame(n: Node, step: Step, n': Node)
    requires DaserStep(n, step, n') && (step.SamplingStarts? || step.SamplingEnds? || step.Disconnect?)
    ensures n'.daser.config == n.daser.config && Taken(n'.dpc) == {}
    ensures step.SamplingStarts? ==> n.dpc.DRecorded? && n'.daser.futs == n.daser.futs[n.dpc.height := n.dpc.cids]
    ensures step.SamplingEnds? ==> n'.daser.futs == n.daser.futs - {step.height}
    ensures step.Disconnect? ==> n'.daser.futs == map[]
  {}

  lemma AddSize(futs: map<u64, set<Cid>>, h: u64, cids: set<Cid>)
    ensures |futs[h := cids]| <= |futs| + 1
  {
    assert futs[h := cids].Keys == futs.Keys + {h};
    assert |futs[h := cids].Keys| <= |futs.Keys| + 1;
  }

  // ---- What the store holds ----

  predicate StoreInv(n: Node) {
    0 !in n.store.stored && n.store.stored !! n.store.pruned
  }

  lemma StepKeepsStoreInv(n: Node, step: Step, n': Node)
    requires StoreInv(n) && Next(n, step, n')
    ensures StoreInv(n')
  {
    hide DaserStep, PrunerStep, SyncerStep;
    if DaserStep(n, step, n') {
      DaserFrame(n, step, n');
    } else if SyncerStep(n, step, n') {
      var range := SyncerFrame(n, step, n');
    } else {
      PrunerFrame(n, step, n');
      if step.PrunerRemovesHeader? {
        RemovalFrame(n, step, n');
      }
    }
  }

  // ---- All invariants together ----

  ghost predicate NodeInv(n: Node) {
    Handshake(n) && EdgeInv(n) && SampleInv(n) && FetchInv(n, n.syncer) && CountInv(n) &&
    BatchInv(n) && StoreInv(n)
  }

  lemma InitInv(n: Node)
    requires Init(n)
    ensures NodeInv(n)
  {}

  lemma NextKeepsInv(n: Node, step: Step, n': Node)
    requires NodeInv(n) && Next(n, step, n')
    ensures NodeInv(n')
  {
    hide DaserStep, PrunerStep, SyncerStep, Handshake, EdgeInv, SampleInv, FetchInv, CountInv, BatchInv, StoreInv;
    StepKeepsStoreInv(n, step, n');
    if DaserStep(n, step, n') {
      DaserStepKeepsInv(n, step, n');
    } else if PrunerStep(n, step, n') {
      PrunerStepKeepsInv(n, step, n');
    } else {
      SyncerStepKeepsInv(n, step, n');
    }
  }

  lemma DaserStepKeepsInv(n: Node, step: Step, n': Node)
    requires NodeInv(n) && DaserStep(n, step, n') && StoreInv(n')
    ensures NodeInv(n')
  {
    hide DaserStep, SamplerInv, PrunerInv, EdgeInv, SampleInv, FetchInv, CountInv, BatchInv, StoreInv;
    DaserKeepsSamplerInv(n, step, n');
    DaserKeepsPrunerInv(n, step, n');
    DaserKeepsEdgeInv(n, step, n');
    DaserKeepsSampleInv(n, step, n');
    DaserKeepsCountInv(n, step, n');
    DaserKeepsBatchInv(n, step, n');
    DaserFrame(n, step, n');
    FetchInvFrame(n, n', n.syncer);
  }

  lemma PrunerStepKeepsInv(n: Node, step: Step, n': Node)
    requires NodeInv(n) && PrunerStep(n, step, n') && StoreInv(n')
    ensures NodeInv(n')
  {
    hide PrunerStep, SamplerInv, PrunerInv, EdgeInv, SampleInv, FetchInv, BatchInv, StoreInv;
    PrunerKeepsSamplerInv(n, step, n');
    PrunerKeepsPrunerInv(n, step, n');
    PrunerKeepsEdgeInv(n, step, n');
    PrunerKeepsSampleInv(n, step, n');
    PrunerKeepsBatchInv(n, step, n');
    PrunerFrame(n, step, n');
    RemovedKeepsSynced(n, step, n');
    FetchInvFrame(n, n', n.syncer);
  }

  lemma SyncerStepKeepsInv(n: Node, step: Step, n': Node)
    requires NodeInv(n) && SyncerStep(n, step, n') && StoreInv(n')
    ensures NodeInv(n')
  {
    hide SyncerStep, SamplerInv, PrunerInv, EdgeInv, SampleInv, FetchInv, BatchInv, StoreInv;
    SyncerKeepsHandshake(n, step, n');
    SyncerKeepsEdgeInv(n, step, n');
    SyncerKeepsSampleInv(n, step, n');
    SyncerKeepsFetchInv(n, step, n');
    SyncerKeepsBatchInv(n, step, n');
    var range := SyncerFrame(n, step, n');
  }

  /** Every reachable state satisfies the invariants. */
  lemma {:induction false} Reachable(states: seq<Node>, steps: seq<Step>, i: nat)
    requires IsRun(states, steps) && i < |states|
    ensures NodeInv(states[i])
  {
    hide NodeInv, Next, Init;
    if i == 0 {
      InitInv(states[0]);
    } else {
      Reachable(states, steps, i - 1);
      NextKeepsInv(states[i - 1], steps[i - 1], states[i]);
    }
  }

  // ---- The properties ----

  /**
   * A header is never removed while it is being sampled, nor while the sampler is about to, and
   * only once it is sampled or the sampler gave it away.
   */
  lemma NeverPrunesLiveSampling(states: seq<Node>, steps: seq<Step>, i: nat, h: u64)
    requires IsRun(states, steps) && i < |steps|
    requires h in states[i].store.stored && h !in states[i + 1].store.stored
    ensures h !in states[i].daser.futs && h !in states[i + 1].daser.futs
    ensures h !in Taken(states[i].dpc) && h !in states[i].daser.queue
    ensures h in states[i].store.sampled || h in states[i].daser.willBePruned
  {
    hide EdgeInv, SampleInv, FetchInv, CountInv, BatchInv, Init;
    var n, n' := states[i], states[i + 1];
    Reachable(states, steps, i);
    assert Next(n, steps[i], n');
    RemovedIsPending(n, steps[i], n', h);
  }

  lemma RemovedIsPending(n: Node, step: Step, n': Node, h: u64)
    requires Next(n, step, n') && h in n.store.stored && h !in n'.store.stored
    ensures h in Pending(n.pruner) && n'.daser == n.daser && n'.dpc == n.dpc
  {
    hide DaserStep, SyncerStep, Insertable;
    if DaserStep(n, step, n') {
      DaserFrame(n, step, n');
    } else if SyncerStep(n, step, n') {
      var range := SyncerFrame(n, step, n');
    } else {
      PrunerFrame(n, step, n');
    }
  }

  /** Once the sampler said yes to `WantToPrune`, it never queues or samples that height again. */
  lemma {:induction false} LetGoForever(states: seq<Node>, steps: seq<Step>, i: nat, j: nat, h: u64)
    requires IsRun(states, steps) && i <= j < |states| && h in states[i].daser.willBePruned
    ensures h in states[j].daser.willBePruned
    ensures h !in states[j].daser.ongoing && h !in states[j].daser.futs && h !in states[j].daser.queue
    ensures h !in Taken(states[j].dpc)
    decreases j
  {
    hide NodeInv, Next, Init;
    Reachable(states, steps, j);
    if i < j {
      LetGoForever(states, steps, i, j - 1, h);
      GivenAwayGrows(states[j - 1], steps[j - 1], states[j]);
    }
    GivenAwayIsUntouched(states[j], h);
  }

  lemma GivenAwayIsUntouched(n: Node, h: u64)
    requires NodeInv(n) && h in n.daser.willBePruned
    ensures h !in n.daser.ongoing && h !in n.daser.futs && h !in n.daser.queue && h !in Taken(n.dpc)
  {
    hide EdgeInv, SampleInv, FetchInv, CountInv, PrunerInv, BatchInv;
  }

  lemma GivenAwayGrows(n: Node, step: Step, n': Node)
    requires Next(n, step, n')
    ensures n.daser.willBePruned <= n'.daser.willBePruned
  {
    hide DaserStep, SyncerStep, PrunerStep;
    if DaserStep(n, step, n') {
      DaserFrame(n, step, n');
    } else if SyncerStep(n, step, n') {
      var range := SyncerFrame(n, step, n');
    } else {
      PrunerFrame(n, step, n');
    }
  }

  lemma PermittedIsNeverSampled(states: seq<Node>, steps: seq<Step>, i: nat, j: nat)
    requires IsRun(states, steps) && i < |steps| && i < j < |states|
    requires steps[i].Answer? && states[i + 1].pruner.PAnswered? && states[i + 1].pruner.allowed
    ensures states[i + 1].pruner.height !in states[j].daser.ongoing
    ensures states[i + 1].pruner.height !in states[j].daser.futs
  {
    assert Next(states[i], steps[i], states[i + 1]);
    LetGoForever(states, steps, i + 1, j, states[i + 1].pruner.height);
  }

  /**
   * When the pruner starts to remove, every block that it saw stored outside the pruning window goes if it
   * may: outside the sampling window when it was sampled or let go, inside it when it was sampled and no edge
   * of what was synced. Otherwise the batch is full. Outside both windows it asked about all others.
   */
  lemma BatchTakesAll(states: seq<Node>, steps: seq<Step>, i: nat, h: u64)
    requires IsRun(states, steps) && i < |steps| && steps[i].PrunerStartsRemoving?
    ensures states[i].pruner.PPicking?
    ensures var p, pick := states[i].pruner, states[i].pruner.pick;
            h in pick.stored && 0 < h && pick.afterPruning.Some? && h <= pick.afterPruning.value ==>
              var outside := pick.afterSampling.Some? && h <= pick.afterSampling.value;
              && ((if outside then h in pick.sampled || h in p.granted
                   else h in pick.sampled && !IsEdge(pick.pruned + pick.stored, h)) ==>
                    h in p.batch || |p.batch| == 512)
              && (outside && h !in pick.sampled ==> h in Asked(pick, p.rest) || |p.batch| == 512)
  {
    hide NodeInv, Init, Next, IsBatch, IsEdge, PrunableAndSampled, AfterSampling;
    BatchOverRuns(states, steps, i);
    var p, pick := states[i].pruner, states[i].pruner.pick;
    if h in pick.stored && 0 < h && pick.afterPruning.Some? && h <= pick.afterPruning.value {
      BatchIsComplete(p.batch, pick.stored, pick.pruned, pick.sampled, pick.afterPruning, pick.afterSampling,
                      Grants(p.granted), Asked(pick, p.rest), h);
    }
  }

  /** No step of the sampler or the pruner ever finds that a header it relies on is gone. */
  lemma StoreNeverMisses(states: seq<Node>, steps: seq<Step>, i: nat)
    requires IsRun(states, steps) && i < |states|
    ensures states[i].dpc != DDead && states[i].pruner != PDead
  {
    hide EdgeInv, SampleInv, FetchInv, CountInv, BatchInv, Init, Next;
    Reachable(states, steps, i);
  }

  /**
   * When the pruner starts to remove, its batch is what its loop computes for the answers it got,
   * although other components ran between its reads, its questions and the answers.
   */
  lemma BatchOverRuns(states: seq<Node>, steps: seq<Step>, i: nat)
    requires IsRun(states, steps) && i < |steps| && steps[i].PrunerStartsRemoving?
    ensures var n, p := states[i], states[i].pruner;
            && p.PPicking? && states[i + 1].pruner == PRemoving(p.batch)
            && p.granted <= n.daser.willBePruned
            && IsBatch(p.batch, p.pick.Free(), p.pick.Guarded(), p.pick.sampled, Grants(p.granted), Asked(p.pick, p.rest))
  {
    hide Handshake, EdgeInv, SampleInv, FetchInv, CountInv, Init, Collected, IsBatch;
    Reachable(states, steps, i);
    assert Next(states[i], steps[i], states[i + 1]);
    var p := states[i].pruner;
    CollectEnd(p.pick, p.batch, p.rest, p.granted);
  }

  /**
   * Such a batch has at most 512 blocks. All were stored when it was chosen. Above the sampling bound
   * each was sampled and no edge of what was synced; below, each was sampled or the sampler let it go.
   */
  lemma BatchBlocksOverRuns(states: seq<Node>, steps: seq<Step>, i: nat, h: u64)
    requires IsRun(states, steps) && i < |states| && states[i].pruner.PPicking? && h in states[i].pruner.batch
    ensures var n, pick := states[i], states[i].pruner.pick;
            && |n.pruner.batch| <= 512 && h in pick.stored
            && if AboveBound(n.bound, h) then h in pick.sampled && !IsEdge(pick.pruned + pick.stored, h)
               else h in pick.sampled || h in n.daser.willBePruned
  {
    hide Handshake, EdgeInv, SampleInv, FetchInv, CountInv, Init, Next, IsEdge;
    Reachable(states, steps, i);
    BatchBlock(states[i], h);
  }

  /**
   * No sampling starts beyond the configured limit, except for the height that was the head when it was
   * taken from the queue, and none starts for a height that the pruner's backlog reaches.
   */
  lemma StartsWithinLimits(states: seq<Node>, steps: seq<Step>, i: nat)
    requires IsRun(states, steps) && i < |steps| && steps[i].SamplingStarts?
    ensures var d, d' := states[i].daser, states[i + 1].daser;
            && states[i].dpc.DRecorded?
            && var h := states[i].dpc.height;
               && h in d'.futs
               && (|d'.futs| > d.config.concurrencyLimit ==> d.headHeight == Some(h))
               && |d'.futs| <= d.config.concurrencyLimit + d.config.additionalHeaderSubConcurrency
               && !(d.highestPrunableHeight.Some? && h <= d.highestPrunableHeight.value && d.numOfPrunableBlocks >= 512)
  {
    hide Init, NodeInv;
    var n, n' := states[i], states[i + 1];
    Reachable(states, steps, i);
    assert Next(n, steps[i], n');
    RoomToStart(n, steps[i], n');
  }

  lemma RoomToStart(n: Node, step: Step, n': Node)
    requires NodeInv(n) && Next(n, step, n') && step.SamplingStarts?
    ensures n.dpc.DRecorded? && n'.daser.futs == n.daser.futs[n.dpc.height := n.dpc.cids]
    ensures |n'.daser.futs| <= |n.daser.futs| + 1 && HasRoom(n.daser, n.dpc.height) && 0 < n.dpc.height
  {
    hide PrunerInv, EdgeInv, SampleInv, FetchInv, BatchInv, HasRoom, DaserStep;
    CountingFrame(n, step, n');
    AddSize(n.daser.futs, n.dpc.height, n.dpc.cids);
    assert n.dpc.height in Taken(n.dpc);
  }

  /**
   * The sampler forgets nothing: a height that it once read as stored, and that stayed stored, is queued,
   * taken, being sampled, sampled, timed out or given away until all peers are gone.
   */
  lemma {:induction false} NothingIsForgotten(states: seq<Node>, steps: seq<Step>, i: nat, j: nat, h: u64)
    requires IsRun(states, steps) && i < j < |states| && steps[i].ReadSampledForQueue?
    requires states[i].dpc.DReading? && h in states[i].dpc.stored
    requires forall k :: i <= k <= j ==> h in states[k].store.stored
    requires forall k :: i <= k < j ==> !steps[k].Disconnect?
    ensures CoverInv(states[j], h)
    decreases j
  {
    hide Init, NodeInv, CoverInv;
    var n, n' := states[j - 1], states[j];
    assert Next(n, steps[j - 1], n');
    if i + 1 == j {
      QueueingCovers(n, steps[i], n', h);
    } else {
      NothingIsForgotten(states, steps, i, j - 1, h);
      Reachable(states, steps, j - 1);
      StoredIsPositive(n, h);
      StepCovers(n, steps[j - 1], n', h);
    }
  }

  lemma StoredIsPositive(n: Node, h: u64)
    requires NodeInv(n) && h in n.store.stored
    ensures 0 < h
  {
    hide Handshake, EdgeInv, SampleInv, FetchInv, CountInv, BatchInv;
  }

  /** While it waits, the sampler is about to sample, samples, sampled, gave up or gave away whatever it saw. */
  lemma EverythingIsHandled(states: seq<Node>, steps: seq<Step>, i: nat, j: nat, h: u64)
    requires IsRun(states, steps) && i < j < |states| && steps[i].ReadSampledForQueue?
    requires states[i].dpc.DReading? && h in states[i].dpc.stored
    requires forall k :: i <= k <= j ==> h in states[k].store.stored
    requires forall k :: i <= k < j ==> !steps[k].Disconnect?
    requires states[j].dpc.DIdle?
    ensures var n := states[j];
            || h in n.daser.queue || h in n.daser.futs || h in n.store.sampled
            || h in n.daser.timedOut || h in n.daser.willBePruned
  {
    hide Init, Next, PrunerInv, EdgeInv, SampleInv, FetchInv, CountInv, BatchInv;
    NothingIsForgotten(states, steps, i, j, h);
    Reachable(states, steps, j);
  }

  /** A header is stored or remembered as pruned, never both. */
  lemma StoredIsNotPruned(states: seq<Node>, steps: seq<Step>, i: nat)
    requires IsRun(states, steps) && i < |states|
    ensures states[i].store.stored !! states[i].store.pruned && 0 !in states[i].store.stored
  {
    hide Handshake, EdgeInv, SampleInv, FetchInv, CountInv, BatchInv, Init, Next;
    Reachable(states, steps, i);
  }

  /** What was synced once stays synced: a header leaves the store only to be remembered as pruned. */
  lemma {:induction false} SyncedOnlyGrows(states: seq<Node>, steps: seq<Step>, i: nat, j: nat)
    requires IsRun(states, steps) && i <= j < |states|
    ensures Synced(states[i].store) <= Synced(states[j].store)
    decreases j
  {
    hide Next, Init;
    if i < j {
      SyncedOnlyGrows(states, steps, i, j - 1);
      StepKeepsSynced(states[j - 1], steps[j - 1], states[j]);
    }
  }

  lemma StepKeepsSynced(n: Node, step: Step, n': Node)
    requires Next(n, step, n')
    ensures Synced(n.store) <= Synced(n'.store)
  {
    hide DaserStep, SyncerStep, PrunerStep, Insertable, BlockRange.Span;
    if DaserStep(n, step, n') {
      DaserFrame(n, step, n');
    } else if SyncerStep(n, step, n') {
      var range := SyncerFrame(n, step, n');
    } else {
      PrunerFrame(n, step, n');
    }
  }

  /**
   * No deadlock: in every run the sampler can go on unless it waits for an event, the pruner can go on unless
   * it waits for an answer or has stopped, and a waiting sampler answers a waiting pruner.
   */
  lemma NoDeadlock(states: seq<Node>, steps: seq<Step>, i: nat)
    requires IsRun(states, steps) && i < |states|
    ensures SamplerCanGoOn(states[i]) && PrunerCanGoOn(states[i])
    ensures states[i].dpc.DIdle? && states[i].pruner.PAsking? ==> exists n' :: DaserStep(states[i], Answer, n')
  {
    hide Init, Next, SamplerCanGoOn, PrunerCanGoOn, EdgeInv, SampleInv, FetchInv, CountInv, BatchInv, StoreInv, DaserStep;
    var n := states[i];
    Reachable(states, steps, i);
    SamplerGoesOn(n);
    PrunerGoesOn(n);
    if n.dpc.DIdle? && n.pruner.PAsking? {
      var n' := SamplerAnswers(n);
    }
  }

  /** Every sample in the blockstore is listed in the metadata of a stored header. */
  lemma NoSampleLeaks(states: seq<Node>, steps: seq<Step>, i: nat)
    requires IsRun(states, steps) && i < |states|
    ensures NoLeak(states[i])
  {
    hide Handshake, EdgeInv, FetchInv, CountInv, BatchInv, Init, Next;
    Reachable(states, steps, i);
  }

  /** Every edge of what is synced that the sampling window still covers is stored. */
  lemma EdgesStayStored(states: seq<Node>, steps: seq<Step>, i: nat, h: u64)
    requires IsRun(states, steps) && i < |states|
    requires IsEdge(Synced(states[i].store), h) && AboveBound(states[i].bound, h)
    ensures h in states[i].store.stored
  {
    hide Handshake, SampleInv, FetchInv, CountInv, BatchInv, Init, Next;
    Reachable(states, steps, i);
  }

  /**
   * A fetched batch can be inserted: one that fills a gap whenever its upper neighbour is above
   * the bound, one that extends the head unless header-sub delivered its first header already.
   */
  lemma FetchedBatchFits(states: seq<Node>, steps: seq<Step>, i: nat)
    requires IsRun(states, steps) && i < |states| && states[i].syncer.SFetching?
    ensures var n, range := states[i], states[i].syncer.range;
            if n.syncer.forward then range.start !in Synced(n.store) ==> Insertable(n.store.stored, range)
            else AboveBound(n.bound, range.end + 1) ==> Insertable(n.store.stored, range)
  {
    hide NodeInv, Init, Next;
    Reachable(states, steps, i);
    BatchFits(states[i]);
  }

  lemma BatchFits(n: Node)
    requires NodeInv(n) && n.syncer.SFetching?
    ensures var range := n.syncer.range;
            if n.syncer.forward then range.start !in Synced(n.store) ==> Insertable(n.store.stored, range)
            else AboveBound(n.bound, range.end + 1) ==> Insertable(n.store.stored, range)
  {
    hide Handshake, SampleInv, CountInv, BatchInv, IsEdge;
    var range := n.syncer.range;
    if !n.syncer.forward && AboveBound(n.bound, range.end + 1) {
      UpperEndIsStored(n, range);
    }
  }

  /**
   * Between two commands the running samplings are exactly the ongoing heights, there are never
   * more of them than configured, and the queue holds nothing that must not be sampled.
   */
  lemma SamplerStaysConsistent(states: seq<Node>, steps: seq<Step>, i: nat)
    requires IsRun(states, steps) && i < |states|
    ensures var d := states[i].daser;
            && d.ongoing == d.futs.Keys + Ending(states[i].dpc)
            && (states[i].dpc.DIdle? ==> d.ongoing == d.futs.Keys)
            && |d.futs| <= MostSamplings(states[i])
            && d.queue !! d.ongoing && d.queue !! d.timedOut && d.queue !! d.willBePruned
            && Taken(states[i].dpc) !! d.futs.Keys
  {
    hide PrunerInv, EdgeInv, SampleInv, FetchInv, BatchInv, Init, Next;
    Reachable(states, steps, i);
  }
}
