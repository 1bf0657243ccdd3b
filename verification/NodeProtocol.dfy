/**
 * Syncer, sampler and pruner at work on one store. Every `await` is a point where the others may
 * run, so each component is a small machine whose steps interleave in any order.
 */
module NodeProtocol {
  import opened BlockRangeExt
  import opened RangeLists
  import opened BlockRangeSets
  import opened SyncerFetch
  import opened PrunerWindow
  import opened PrunerBatch
  import opened DaserModel
  import opened StoreModel

  /** Where the sampler is. */
  datatype DaserPc =
    | DIdle                          // waiting in `select!`
    | DUpdating                      // in `update_queue`, before the first read
    | DReading(stored: set<u64>)     // between the two reads
    | DScheduling                    // about to pop the queue
    | DPopped(height: u64)           // waiting for `get_by_height`
    | DFound(height: u64)            // waiting for `update_sampling_metadata`
    | DRecorded(height: u64, cids: set<Cid>)  // the store answered, sampling not started yet
    | DMarking(height: u64)          // waiting for `mark_as_sampled`
    | DMarked(height: u64)           // the store answered, `ongoing` not updated yet
    | DDead                          // stopped because the store did not find a header

  /** What the pruner chooses a batch from: what it read from the store, and its two cached bounds. */
  datatype Pick = Pick(
    stored: set<u64>,
    pruned: set<u64>,
    sampled: set<u64>,
    afterPruning: Option<u64>,
    afterSampling: Option<u64>) {

    /** Candidates that need nobody's permission. */
    ghost function Free(): set<u64> { PrunableAndSampled(stored, pruned, sampled, afterPruning, afterSampling) }

    /** Candidates that must be sampled or let go by the sampler. */
    ghost function Guarded(): set<u64> { AfterSampling(stored, afterPruning, afterSampling) }
  }

  /** Where the pruner is. */
  datatype PrunerPc =
    | PIdle
    | PReadStored(stored: set<u64>)
    | PReadPruned(stored: set<u64>, pruned: set<u64>)
    | PReadSampled(stored: set<u64>, pruned: set<u64>, sampled: set<u64>)
    // `rest` is still to be looked at, `granted` are the heights that the sampler let go
    | PPicking(pick: Pick, batch: set<u64>, rest: set<u64>, granted: set<u64>)
    | PAsking(pick: Pick, batch: set<u64>, rest: set<u64>, granted: set<u64>, height: u64)
    | PAnswered(pick: Pick, batch: set<u64>, rest: set<u64>, granted: set<u64>, height: u64, allowed: bool)
    | PRemoving(batch: set<u64>)
    | PDeleting(height: u64, cids: set<Cid>, batch: set<u64>)
    | PStopped
    | PDead                          // stopped because the store did not find a header

  /** Where the syncer is. `forward` tells a batch above the synced head from one below a gap's upper end. */
  datatype SyncerPc =
    | SIdle
    | SReadStored(stored: set<u64>)
    | SFetching(range: BlockRange, forward: bool)
    | SAnnouncing(height: u64, back: SyncerPc)

  datatype Node = Node(
    store: Store,
    blockstore: set<Cid>,
    daser: DaserState,
    dpc: DaserPc,
    connected: bool,
    pruner: PrunerPc,
    bound: Option<u64>,              // the cached `after_sampling_window`
    syncer: SyncerPc)

  ghost predicate Init(n: Node) {
    && n.store == Store({}, {}, {}, map[])
    && n.blockstore == {}
    && n.daser == DaserState({}, {}, {}, {}, map[], None, None, 0, n.daser.config)
    && n.dpc == DIdle && !n.connected
    && n.pruner == PIdle && n.bound == None
    && n.syncer == SIdle
  }

  datatype Step =
    | Connect
    | Disconnect
    | NewHead
    | Wake
    | PrunerValues(highest: Option<u64>, count: u64)
    | ReadStoredForQueue
    | ReadSampledForQueue
    | PopQueue(pop: Pop)
    | GetByHeight(inWindow: bool)
    | RecordCids(cids: set<Cid>)
    | SamplingStarts
    | SamplingEnds(height: u64, timedOut: bool)
    | MarkSampled
    | FinishSampling
    | SampleArrives(cid: Cid)
    | Answer
    | PrunerReadsStored
    | PrunerReadsPruned
    | PrunerReadsSampled
    | PrunerPicks(afterPruning: Option<u64>, afterSampling: Option<u64>, batch: set<u64>)
    | PrunerTakes(height: u64)
    | PrunerHears
    | PrunerStartsRemoving
    | PrunerReadsCids(height: u64)
    | PrunerDeletesCid(cid: Cid)
    | PrunerRemovesHeader
    | PrunerRests
    | PrunerStops
    | SyncerReadsStored
    | SyncerPlans(head: u64, limit: u64, synced: seq<BlockRange>)
    | SyncerSkips
    | SyncerInserts(verified: bool)
    | HeaderSubReads(head: u64)
    | HeaderSubInserts(verified: bool)
    | InitInserts(height: u64)

  /** Steps of the sampler. */
  ghost predicate DaserStep(n: Node, step: Step, n': Node) {
    var d := n'.daser;
    match step
    case Connect =>
      n.dpc.DIdle? && !n.connected && n' == n.(connected := true, dpc := DUpdating)
    case Disconnect =>
      n.dpc.DIdle? && n.connected && Disconnects(n.daser, d) && n' == n.(connected := false, daser := d)
    case NewHead =>
      n.dpc.DIdle? && n.connected && n' == n.(dpc := DUpdating)
    case Wake =>
      // a command, a report or a change of peers: back to scheduling
      n.dpc.DIdle? && n.connected && n' == n.(dpc := DScheduling)
    case PrunerValues(highest, count) =>
      n.dpc.DIdle? && n' == n.(daser := n.daser.(highestPrunableHeight := highest, numOfPrunableBlocks := count))
    case ReadStoredForQueue =>
      n.dpc.DUpdating? && n' == n.(dpc := DReading(n.store.stored))
    case ReadSampledForQueue =>
      n.dpc.DReading? && UpdatesQueue(n.daser, n.dpc.stored, n.store.sampled, d) && n' == n.(dpc := DScheduling, daser := d)
    case PopQueue(pop) =>
      n.dpc.DScheduling? && Pops(n.daser, pop, d) &&
      n' == n.(daser := d, dpc := if pop.Popped? then DPopped(pop.height) else DIdle)
    case GetByHeight(inWindow) =>
      && n.dpc.DPopped?
      && if n.dpc.height !in n.store.stored then n' == n.(dpc := DUpdating)
         else if inWindow then n' == n.(dpc := DFound(n.dpc.height))
         else GivesUpBelow(n.daser, n.dpc.height, d) && n' == n.(dpc := DIdle, daser := d)
    case RecordCids(cids) =>
      && n.dpc.DFound? && (forall c :: c in cids ==> c.height == n.dpc.height)
      && if n.dpc.height !in n.store.stored then n' == n.(dpc := DDead)
         else n' == n.(store := Recorded(n.store, n.dpc.height, cids), dpc := DRecorded(n.dpc.height, cids))
    case SamplingStarts =>
      n.dpc.DRecorded? && StartsSampling(n.daser, n.dpc.height, n.dpc.cids, d) && n' == n.(daser := d, dpc := DScheduling)
    case SamplingEnds(height, timedOut) =>
      && n.dpc.DIdle? && n.connected && height in n.daser.futs
      && var left := n.daser.(futs := n.daser.futs - {height});
         DropsFuture(n.daser, height, left) &&
         if timedOut then TimesOut(left, height, d) && n' == n.(daser := d, dpc := DScheduling)
         else n' == n.(daser := left, dpc := DMarking(height))
    case MarkSampled =>
      && n.dpc.DMarking?
      && if n.dpc.height !in n.store.stored then n' == n.(dpc := DDead)
         else n' == n.(store := MarkedAsSampled(n.store, n.dpc.height), dpc := DMarked(n.dpc.height))
    case FinishSampling =>
      n.dpc.DMarked? && Finishes(n.daser, n.dpc.height, d) && n' == n.(daser := d, dpc := DScheduling)
    case SampleArrives(cid) =>
      && (exists h :: h in n.daser.futs && cid in n.daser.futs[h])
      && n' == n.(blockstore := n.blockstore + {cid})
    case Answer =>
      && n.dpc.DIdle? && n.pruner.PAsking?
      && var allowed := n.pruner.height !in n.daser.ongoing;
         AnswersWantToPrune(n.daser, n.pruner.height, allowed, d) &&
         n' == n.(daser := d, pruner := PAnswered(n.pruner.pick, n.pruner.batch, n.pruner.rest, n.pruner.granted,
                                                  n.pruner.height, allowed))
    case _ => false
  }

  /** Steps of the pruner. */
  ghost predicate PrunerStep(n: Node, step: Step, n': Node) {
    match step
    case PrunerReadsStored =>
      n.pruner.PIdle? && n' == n.(pruner := PReadStored(n.store.stored))
    case PrunerReadsPruned =>
      n.pruner.PReadStored? && n' == n.(pruner := PReadPruned(n.pruner.stored, n.store.pruned))
    case PrunerReadsSampled =>
      n.pruner.PReadPruned? && n' == n.(pruner := PReadSampled(n.pruner.stored, n.pruner.pruned, n.store.sampled))
    case PrunerPicks(afterPruning, afterSampling, batch) =>
      && n.pruner.PReadSampled? && !Less(afterSampling, n.bound)
      && var pick := Pick(n.pruner.stored, n.pruner.pruned, n.pruner.sampled, afterPruning, afterSampling);
         IsTop(batch, pick.Free(), MAX_PRUNABLE_BATCH_SIZE) &&
         n' == n.(bound := afterSampling, pruner := PPicking(pick, batch, pick.Guarded(), {}))
    case PrunerTakes(height) =>
      && n.pruner.PPicking? && |n.pruner.batch| < MAX_PRUNABLE_BATCH_SIZE && IsHighest(n.pruner.rest, height)
      && var pick, batch, rest, granted := n.pruner.pick, n.pruner.batch, n.pruner.rest - {height}, n.pruner.granted;
         n' == n.(pruner := if height in pick.sampled then PPicking(pick, batch + {height}, rest, granted)
                            else PAsking(pick, batch, rest, granted, height))
    case PrunerHears =>
      && n.pruner.PAnswered?
      && var more := if n.pruner.allowed then {n.pruner.height} else {};
         n' == n.(pruner := PPicking(n.pruner.pick, n.pruner.batch + more, n.pruner.rest, n.pruner.granted + more))
    case PrunerStartsRemoving =>
      n.pruner.PPicking? && (n.pruner.rest == {} || |n.pruner.batch| == MAX_PRUNABLE_BATCH_SIZE) &&
      n' == n.(pruner := PRemoving(n.pruner.batch))
    case PrunerReadsCids(height) =>
      && n.pruner.PRemoving? && height in n.pruner.batch
      && if height !in n.store.stored then n' == n.(pruner := PDead)
         else n' == n.(pruner := PDeleting(height, if height in n.store.cids then n.store.cids[height] else {},
                                           n.pruner.batch - {height}))
    case PrunerDeletesCid(cid) =>
      n.pruner.PDeleting? && cid in n.pruner.cids &&
      n' == n.(blockstore := n.blockstore - {cid}, pruner := n.pruner.(cids := n.pruner.cids - {cid}))
    case PrunerRemovesHeader =>
      && n.pruner.PDeleting? && n.pruner.cids == {}
      && if n.pruner.height !in n.store.stored then n' == n.(pruner := PDead)
         else n' == n.(store := Removed(n.store, n.pruner.height), pruner := PRemoving(n.pruner.batch))
    case PrunerRests =>
      n.pruner.PRemoving? && n.pruner.batch == {} && n' == n.(pruner := PIdle)
    case PrunerStops =>
      n.pruner.PRemoving? && n' == n.(pruner := PStopped)
    case _ => false
  }

  /** Steps of the syncer. */
  ghost predicate SyncerStep(n: Node, step: Step, n': Node) {
    match step
    case SyncerReadsStored =>
      n.syncer.SIdle? && n' == n.(syncer := SReadStored(n.store.stored))
    case SyncerPlans(head, limit, synced) =>
      && n.syncer.SReadStored? && Canonical(synced) && Heights(synced) == n.store.pruned + n.syncer.stored
      && var batch := CalculateRangeToFetch(head, synced, limit);
         !batch.IsEmpty() && n' == n.(syncer := SFetching(batch, Top(synced) < head))
    case SyncerSkips =>
      (n.syncer.SReadStored? || n.syncer.SFetching?) && n' == n.(syncer := SIdle)
    case SyncerInserts(verified) =>
      n.syncer.SFetching? &&
      n' == if verified && Insertable(n.store.stored, n.syncer.range)
            then n.(store := Inserted(n.store, n.syncer.range), syncer := SIdle) else n.(syncer := SIdle)
    case HeaderSubReads(head) =>
      (n.syncer.SIdle? || n.syncer.SFetching?) && IsHighest(n.store.stored, head) && head < U64_MAX &&
      n' == n.(syncer := SAnnouncing(head + 1, n.syncer))
    case HeaderSubInserts(verified) =>
      && n.syncer.SAnnouncing?
      && var range := BlockRange(n.syncer.height, n.syncer.height);
         n' == if verified && Insertable(n.store.stored, range)
               then n.(store := Inserted(n.store, range), syncer := n.syncer.back) else n.(syncer := n.syncer.back)
    case InitInserts(height) =>
      && n.syncer.SIdle?
      && var range := BlockRange(height, height);
         Insertable(n.store.stored, range) && n' == n.(store := Inserted(n.store, range))
    case _ => false
  }

  ghost predicate Next(n: Node, step: Step, n': Node) {
    DaserStep(n, step, n') || PrunerStep(n, step, n') || SyncerStep(n, step, n')
  }

  /** Any interleaving from an empty store. */
  ghost predicate IsRun(states: seq<Node>, steps: seq<Step>) {
    && |states| == |steps| + 1
    && Init(states[0])
    && forall i :: 0 <= i < |steps| ==> Next(states[i], steps[i], states[i + 1])
  }
}
