/** No component gets stuck: in every reachable state each has a step to take unless it waits for an event. */
module NodeProgress {
  import opened BlockRangeExt
  import opened RangeLists
  import opened BlockRangeSets
  import opened SyncerFetch
  import opened PrunerWindow
  import opened PrunerBatch
  import opened DaserModel
  import opened StoreModel
  import opened NodeProtocol
  import opened NodeSafety
  import opened NodeBatch

  lemma {:induction false} HighestExists(s: set<u64>) returns (h: u64)
    requires s != {}
    ensures IsHighest(s, h)
  {
    h :| h in s;
    var rest := s - {h};
    assert s == rest + {h};
    if rest != {} {
      var other := HighestExists(rest);
      h := if other < h then h else other;
    }
  }

  lemma HeadExists(s: set<u64>) returns (head: Option<u64>)
    ensures IsHead(s, head)
  {
    if s == {} {
      head := None;
    } else {
      var h := HighestExists(s);
      head := Some(h);
    }
  }

  lemma {:induction false} TopExists(all: set<u64>, limit: u64) returns (top: set<u64>)
    ensures IsTop(top, all, limit)
    decreases limit
  {
    top := {};
    if all != {} && 0 < limit {
      var h := HighestExists(all);
      var lower := TopExists(all - {h}, limit - 1);
      top := lower + {h};
      TopWithHighest(lower, all, h, limit);
    }
  }

  lemma TopWithHighest(lower: set<u64>, all: set<u64>, h: u64, limit: u64)
    requires 0 < limit && IsHighest(all, h) && IsTop(lower, all - {h}, limit - 1)
    ensures IsTop(lower + {h}, all, limit)
  {
    assert |all - {h}| == |all| - 1;
    assert all - (lower + {h}) == (all - {h}) - lower;
  }

  /** The sampler can always go on, except while it waits for an event. */
  ghost predicate SamplerCanGoOn(n: Node) {
    n.dpc.DIdle? || exists step, n' :: DaserStep(n, step, n') && n'.dpc != n.dpc
  }

  /** The pruner can always go on, except while it waits for the sampler's answer or has stopped. */
  ghost predicate PrunerCanGoOn(n: Node) {
    n.pruner.PAsking? || n.pruner.PStopped? || exists step, n' :: PrunerStep(n, step, n') && n'.pruner != n.pruner
  }

  /** A waiting sampler answers, yes exactly if it does not sample the height. */
  lemma SamplerAnswers(n: Node) returns (n': Node)
    requires n.dpc.DIdle? && n.pruner.PAsking?
    ensures DaserStep(n, Answer, n')
    ensures n'.pruner.PAnswered? && (n'.pruner.allowed <==> n.pruner.height !in n.daser.ongoing)
  {
    var p, h := n.pruner, n.pruner.height;
    var allowed := h !in n.daser.ongoing;
    var d := if allowed then n.daser.(queue := n.daser.queue - {h}, willBePruned := n.daser.willBePruned + {h}) else n.daser;
    n' := n.(daser := d, pruner := PAnswered(p.pick, p.batch, p.rest, p.granted, h, allowed));
  }

  /** A waiting sampler takes every event: peers that come and go, a new head, commands, reports, the pruner's values. */
  lemma SamplerTakesEvents(n: Node, highest: Option<u64>, count: u64) returns (n': Node)
    requires n.dpc.DIdle?
    ensures !n.connected ==> DaserStep(n, Connect, n.(connected := true, dpc := DUpdating))
    ensures n.connected ==> DaserStep(n, NewHead, n.(dpc := DUpdating)) && DaserStep(n, Wake, n.(dpc := DScheduling))
    ensures n.connected ==> DaserStep(n, Disconnect, n') && !n'.connected
    ensures DaserStep(n, PrunerValues(highest, count),
                      n.(daser := n.daser.(highestPrunableHeight := highest, numOfPrunableBlocks := count)))
  {
    var d := n.daser.(futs := map[], queue := {}, ongoing := {}, timedOut := {}, headHeight := None);
    n' := n.(connected := false, daser := d);
  }

  /** Every running sampling may end, either way. */
  lemma SamplingMayEnd(n: Node, height: u64, timedOut: bool) returns (n': Node)
    requires n.dpc.DIdle? && n.connected && height in n.daser.futs
    ensures DaserStep(n, SamplingEnds(height, timedOut), n')
  {
    var left := n.daser.(futs := n.daser.futs - {height});
    var d := left.(timedOut := left.timedOut + {height}, ongoing := left.ongoing - {height});
    n' := if timedOut then n.(daser := d, dpc := DScheduling) else n.(daser := left, dpc := DMarking(height));
  }

  lemma SamplerGoesOn(n: Node)
    requires n.dpc != DDead
    ensures SamplerCanGoOn(n)
  {
    match n.dpc
    case DIdle =>
    case DUpdating =>
      assert DaserStep(n, ReadStoredForQueue, n.(dpc := DReading(n.store.stored)));
    case DReading(stored) =>
      ReadingGoesOn(n);
    case DScheduling =>
      SchedulingGoesOn(n);
    case DPopped(height) =>
      var step := GetByHeight(true);
      assert DaserStep(n, step, n.(dpc := if height in n.store.stored then DFound(height) else DUpdating));
    case DFound(height) =>
      var n' := if height in n.store.stored then n.(store := Recorded(n.store, height, {}), dpc := DRecorded(height, {}))
                else n.(dpc := DDead);
      assert DaserStep(n, RecordCids({}), n');
    case DRecorded(height, cids) =>
      var d := n.daser.(futs := n.daser.futs[height := cids], ongoing := n.daser.ongoing + {height});
      assert DaserStep(n, SamplingStarts, n.(daser := d, dpc := DScheduling));
    case DMarking(height) =>
      var n' := if height in n.store.stored then n.(store := MarkedAsSampled(n.store, height), dpc := DMarked(height))
                else n.(dpc := DDead);
      assert DaserStep(n, MarkSampled, n');
    case DMarked(height) =>
      var d := n.daser.(ongoing := n.daser.ongoing - {height});
      assert DaserStep(n, FinishSampling, n.(daser := d, dpc := DScheduling));
  }

  lemma ReadingGoesOn(n: Node)
    requires n.dpc.DReading?
    ensures SamplerCanGoOn(n)
  {
    hide IsHead;
    var head := HeadExists(n.dpc.stored);
    var d := n.daser;
    var d' := d.(queue := n.dpc.stored - n.store.sampled - d.timedOut - d.ongoing - d.willBePruned, headHeight := head);
    assert DaserStep(n, ReadSampledForQueue, n.(dpc := DScheduling, daser := d'));
  }

  lemma SchedulingGoesOn(n: Node)
    requires n.dpc.DScheduling?
    ensures SamplerCanGoOn(n)
  {
    hide HasRoom, IsHighest;
    if n.daser.queue == {} {
      assert DaserStep(n, PopQueue(Empty), n.(dpc := DIdle));
    } else {
      var h := HighestExists(n.daser.queue);
      if HasRoom(n.daser, h) {
        var d := n.daser.(queue := n.daser.queue - {h});
        assert DaserStep(n, PopQueue(Popped(h)), n.(daser := d, dpc := DPopped(h)));
      } else {
        assert DaserStep(n, PopQueue(Paused), n.(dpc := DIdle));
      }
    }
  }

  lemma PrunerGoesOn(n: Node)
    requires n.pruner != PDead && BatchInv(n)
    ensures PrunerCanGoOn(n)
  {
    hide BatchInv, IsTop, Pick.Free, Pick.Guarded;
    match n.pruner
    case PIdle =>
      assert PrunerStep(n, PrunerReadsStored, n.(pruner := PReadStored(n.store.stored)));
    case PReadStored(stored) =>
      assert PrunerStep(n, PrunerReadsPruned, n.(pruner := PReadPruned(stored, n.store.pruned)));
    case PReadPruned(stored, pruned) =>
      assert PrunerStep(n, PrunerReadsSampled, n.(pruner := PReadSampled(stored, pruned, n.store.sampled)));
    case PReadSampled(stored, pruned, sampled) =>
      var n' := PickIsPossible(n, n.bound, n.bound);
    case PPicking(pick, batch, rest, granted) =>
      PickingGoesOn(n);
    case PAnswered(pick, batch, rest, granted, height, allowed) =>
      var more := if allowed then {height} else {};
      assert PrunerStep(n, PrunerHears, n.(pruner := PPicking(pick, batch + more, rest, granted + more)));
    case PRemoving(batch) =>
      RemovingGoesOn(n);
    case PDeleting(height, cids, batch) =>
      DeletingGoesOn(n);
    case _ =>
  }

  /** Whatever bounds the search finds, as long as none goes back, there is a batch to start with. */
  lemma PickIsPossible(n: Node, afterPruning: Option<u64>, afterSampling: Option<u64>) returns (n': Node)
    requires n.pruner.PReadSampled? && !Less(afterSampling, n.bound)
    ensures n'.pruner.PPicking? && PrunerStep(n, PrunerPicks(afterPruning, afterSampling, n'.pruner.batch), n')
  {
    hide IsTop, Pick.Free, Pick.Guarded;
    var pick := Pick(n.pruner.stored, n.pruner.pruned, n.pruner.sampled, afterPruning, afterSampling);
    var batch := TopExists(pick.Free(), MAX_PRUNABLE_BATCH_SIZE);
    n' := n.(bound := afterSampling, pruner := PPicking(pick, batch, pick.Guarded(), {}));
  }

  lemma PickingGoesOn(n: Node)
    requires n.pruner.PPicking? && BatchInv(n)
    ensures PrunerCanGoOn(n)
  {
    hide IsTop, Pick.Free, Pick.Guarded, Filling, IsHighest;
    var p := n.pruner;
    if p.rest == {} || |p.batch| == MAX_PRUNABLE_BATCH_SIZE {
      assert PrunerStep(n, PrunerStartsRemoving, n.(pruner := PRemoving(p.batch)));
    } else {
      var h := HighestExists(p.rest);
      var p' := if h in p.pick.sampled then PPicking(p.pick, p.batch + {h}, p.rest - {h}, p.granted)
                else PAsking(p.pick, p.batch, p.rest - {h}, p.granted, h);
      assert PrunerStep(n, PrunerTakes(h), n.(pruner := p'));
      assert h in p.rest by { HighestIsMember(p.rest, h); }
    }
  }

  lemma HighestIsMember(s: set<u64>, h: u64)
    requires IsHighest(s, h)
    ensures h in s
  {}

  lemma RemovingGoesOn(n: Node)
    requires n.pruner.PRemoving?
    ensures PrunerCanGoOn(n)
  {
    var batch := n.pruner.batch;
    if batch == {} {
      assert PrunerStep(n, PrunerRests, n.(pruner := PIdle));
    } else {
      var h :| h in batch;
      var cids := if h in n.store.cids then n.store.cids[h] else {};
      var p' := if h in n.store.stored then PDeleting(h, cids, batch - {h}) else PDead;
      assert PrunerStep(n, PrunerReadsCids(h), n.(pruner := p'));
    }
  }

  lemma DeletingGoesOn(n: Node)
    requires n.pruner.PDeleting?
    ensures PrunerCanGoOn(n)
  {
    var p := n.pruner;
    if p.cids == {} {
      var n' := if p.height in n.store.stored then n.(store := Removed(n.store, p.height), pruner := PRemoving(p.batch))
                else n.(pruner := PDead);
      assert PrunerStep(n, PrunerRemovesHeader, n');
    } else {
      var cid :| cid in p.cids;
      assert PrunerStep(n, PrunerDeletesCid(cid), n.(blockstore := n.blockstore - {cid}, pruner := p.(cids := p.cids - {cid})));
    }
  }

  /** The syncer can always go on: read, plan what is missing, insert what it got. */
  lemma SyncerGoesOn(n: Node, head: u64, limit: u64, synced: seq<BlockRange>, verified: bool) returns (n': Node)
    ensures n.syncer.SIdle? ==> SyncerStep(n, SyncerReadsStored, n')
    ensures n.syncer.SReadStored? && Canonical(synced) && Heights(synced) == n.store.pruned + n.syncer.stored &&
            !CalculateRangeToFetch(head, synced, limit).IsEmpty() ==>
              && SyncerStep(n, SyncerPlans(head, limit, synced), n') && n'.syncer.SFetching?
              && n'.syncer.range == CalculateRangeToFetch(head, synced, limit)
    ensures n.syncer.SFetching? ==>
              && SyncerStep(n, SyncerInserts(verified), n')
              && (verified && Insertable(n.store.stored, n.syncer.range) ==> n.syncer.range.Span() <= n'.store.stored)
    ensures n.syncer.SAnnouncing? ==>
              && SyncerStep(n, HeaderSubInserts(verified), n')
              && (verified && Insertable(n.store.stored, BlockRange(n.syncer.height, n.syncer.height)) ==>
                    n.syncer.height in n'.store.stored)
  {
    hide Heights, Insertable, CalculateRangeToFetch, Separated;
    match n.syncer
    case SIdle =>
      n' := n.(syncer := SReadStored(n.store.stored));
    case SReadStored(stored) =>
      n' := n;
      if Canonical(synced) {
        CanonicalIsSorted(synced);
        n' := n.(syncer := SFetching(CalculateRangeToFetch(head, synced, limit), Top(synced) < head));
      }
    case SFetching(range, forward) =>
      n' := if verified && Insertable(n.store.stored, range) then n.(store := Inserted(n.store, range), syncer := SIdle)
            else n.(syncer := SIdle);
    case SAnnouncing(height, back) =>
      var one := BlockRange(height, height);
      n' := if verified && Insertable(n.store.stored, one) then n.(store := Inserted(n.store, one), syncer := back)
            else n.(syncer := back);
  }
}
