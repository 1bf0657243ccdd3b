/** No sample outlives the header it belongs to. */
module NodeSamples {
  import opened BlockRangeExt
  import opened BlockRangeSets
  import opened PrunerBatch
  import opened DaserModel
  import opened StoreModel
  import opened NodeProtocol
  import opened NodeSafety

  /** Every sample in the blockstore is listed with a stored header, so the pruner will find it. */
  ghost predicate NoLeak(n: Node) {
    forall c :: c in n.blockstore ==> c.height in n.store.stored && c.height in n.store.cids && c in n.store.cids[c.height]
  }

  ghost predicate SampleInv(n: Node) {
    && NoLeak(n)
    // metadata belongs to stored headers and lists only their own samples
    && n.store.cids.Keys <= n.store.stored
    && (forall h, c :: h in n.store.cids && c in n.store.cids[h] ==> c.height == h)
    // what is being fetched was listed first
    && (forall h :: h in n.daser.futs ==> h in n.store.cids && n.daser.futs[h] <= n.store.cids[h])
    && (n.dpc.DRecorded? ==> n.dpc.height in n.store.cids && n.dpc.cids <= n.store.cids[n.dpc.height])
    // while a header is being removed its samples only become fewer
    && (n.pruner.PDeleting? ==> forall c :: c in n.blockstore && c.height == n.pruner.height ==> c in n.pruner.cids)
  }

  lemma RecordingKeepsSampleInv(n: Node, step: Step, n': Node)
    requires SampleInv(n) && Handshake(n) && DaserStep(n, step, n')
    requires step.RecordCids? || step.SamplingStarts? || step.SampleArrives?
    ensures SampleInv(n')
  {}

  /** The other steps of the sampler start no sampling and touch no sample. */
  lemma SampleFrame(n: Node, step: Step, n': Node)
    requires DaserStep(n, step, n') && !step.RecordCids? && !step.SamplingStarts? && !step.SampleArrives?
    ensures n'.blockstore == n.blockstore && n'.store.cids == n.store.cids
    ensures forall h :: h in n'.daser.futs ==> h in n.daser.futs && n'.daser.futs[h] == n.daser.futs[h]
    ensures n'.dpc.DRecorded? ==> n'.dpc == n.dpc
    ensures n'.pruner.PDeleting? ==> n'.pruner == n.pruner
  {
    if IsScheduling(step) {
      hide DaserStep;
      SchedulingFrame(n, step, n');
    }
  }

  lemma DaserKeepsSampleInv(n: Node, step: Step, n': Node)
    requires SampleInv(n) && Handshake(n) && DaserStep(n, step, n')
    ensures SampleInv(n')
  {
    if step.RecordCids? || step.SamplingStarts? || step.SampleArrives? {
      RecordingKeepsSampleInv(n, step, n');
    } else {
      hide Handshake, DaserStep;
      DaserFrame(n, step, n');
      SampleFrame(n, step, n');
    }
  }

  lemma PrunerKeepsSampleInv(n: Node, step: Step, n': Node)
    requires SampleInv(n) && Handshake(n) && PrunerStep(n, step, n')
    ensures SampleInv(n')
  {
    if step.PrunerReadsCids? || step.PrunerDeletesCid? || step.PrunerRemovesHeader? {
      RemovingKeepsSampleInv(n, step, n');
    } else {
      hide PrunerStep, Handshake;
      DecidingTouchesNoSample(n, step, n');
    }
  }

  lemma RemovingKeepsSampleInv(n: Node, step: Step, n': Node)
    requires SampleInv(n) && Handshake(n) && PrunerStep(n, step, n')
    requires step.PrunerReadsCids? || step.PrunerDeletesCid? || step.PrunerRemovesHeader?
    ensures SampleInv(n')
  {}

  lemma DecidingTouchesNoSample(n: Node, step: Step, n': Node)
    requires PrunerStep(n, step, n') && !step.PrunerReadsCids? && !step.PrunerDeletesCid? && !step.PrunerRemovesHeader?
    ensures n' == n.(pruner := n'.pruner, bound := n'.bound) && !n'.pruner.PDeleting?
  {
    hide IsTop, Pick.Free, Pick.Guarded, IsHighest;
  }

  lemma SyncerKeepsSampleInv(n: Node, step: Step, n': Node)
    requires SampleInv(n) && SyncerStep(n, step, n')
    ensures SampleInv(n')
  {
    hide SyncerStep, Insertable;
    var range := SyncerFrame(n, step, n');
  }
}
