/** The batch that the pruner collects while the other components run. */
module NodeBatch {
  import opened BlockRangeExt
  import opened RangeLists
  import opened BlockRangeSets
  import opened PrunerWindow
  import opened PrunerBatch
  import opened DaserModel
  import opened StoreModel
  import opened NodeProtocol
  import opened NodeSafety

  /** The sampler's answers so far, as the function that `IsBatch` asks for. */
  function Grants(granted: set<u64>): u64 -> bool { h => h in granted }

  /** What the sampler had to be asked about once only `rest` is left to be looked at. */
  ghost function Asked(pick: Pick, rest: set<u64>): set<u64> { pick.Guarded() - rest - pick.sampled }

  /** Everything but `rest` was looked at, from the top down. */
  ghost predicate Collected(pick: Pick, batch: set<u64>, rest: set<u64>, granted: set<u64>) {
    && |batch| <= MAX_PRUNABLE_BATCH_SIZE && batch <= pick.Free() + pick.Guarded()
    && IsTop(batch * pick.Free(), pick.Free(), MAX_PRUNABLE_BATCH_SIZE)
    && Filling(batch * pick.Guarded(), pick.Guarded(), rest, pick.sampled, Grants(granted), Asked(pick, rest))
    && granted <= Asked(pick, rest)
  }

  /** `height` was taken from the top and is not sampled. */
  ghost predicate Waiting(pick: Pick, batch: set<u64>, rest: set<u64>, granted: set<u64>, height: u64) {
    && Collected(pick, batch, rest + {height}, granted) && |batch| < MAX_PRUNABLE_BATCH_SIZE
    && Below(rest, {height}) && height !in pick.sampled
  }

  ghost predicate BatchInv(n: Node) {
    match n.pruner
    case PPicking(pick, batch, rest, granted) =>
      Collected(pick, batch, rest, granted) && granted <= n.daser.willBePruned && n.bound == pick.afterSampling
    case PAsking(pick, batch, rest, granted, height) =>
      Waiting(pick, batch, rest, granted, height) && granted <= n.daser.willBePruned && n.bound == pick.afterSampling
    case PAnswered(pick, batch, rest, granted, height, allowed) =>
      Waiting(pick, batch, rest, granted, height) && granted <= n.daser.willBePruned && n.bound == pick.afterSampling &&
      (allowed ==> height in n.daser.willBePruned)
    case _ => true
  }

  lemma FreeIsNotGuarded(pick: Pick)
    ensures pick.Free() !! pick.Guarded() && 0 !in pick.Guarded()
  {
    forall h: u64 | h in pick.Free()
      ensures h !in pick.Guarded()
    {
      FreeBlock(pick.stored, pick.pruned, pick.sampled, pick.afterPruning, pick.afterSampling, h);
      if h in pick.Guarded() {
        GuardedBlock(pick.stored, pick.afterPruning, pick.afterSampling, h);
      }
    }
  }

  lemma CollectStart(pick: Pick, batch: set<u64>)
    requires IsTop(batch, pick.Free(), MAX_PRUNABLE_BATCH_SIZE)
    ensures Collected(pick, batch, pick.Guarded(), {})
  {
    hide Pick.Free, Pick.Guarded, Filling;
    FreeIsNotGuarded(pick);
    FillStart(pick.Guarded(), pick.sampled, Grants({}));
    assert batch * pick.Free() == batch && batch * pick.Guarded() == {};
    assert Asked(pick, pick.Guarded()) == {};
  }

  /** Later answers are about other heights. */
  lemma FillingAgrees(added: set<u64>, all: set<u64>, rest: set<u64>, sampled: set<u64>, granted: set<u64>,
                      more: set<u64>, asked: set<u64>)
    requires Filling(added, all, rest, sampled, Grants(granted), asked) && more <= rest
    ensures Filling(added, all, rest, sampled, Grants(granted + more), asked)
  {}

  /** The next height is decided: it goes if it is sampled or the answer was yes. */
  lemma CollectNext(pick: Pick, batch: set<u64>, rest: set<u64>, granted: set<u64>, height: u64, allowed: bool)
    requires Collected(pick, batch, rest + {height}, granted) && |batch| < MAX_PRUNABLE_BATCH_SIZE
    requires Below(rest, {height}) && (height in pick.sampled ==> !allowed)
    ensures var more := if allowed then {height} else {};
            var batch' := if height in pick.sampled || allowed then batch + {height} else batch;
            Collected(pick, batch', rest, granted + more)
  {
    hide Pick.Free, Pick.Guarded, Filling, IsTop, Below, Grants;
    var guarded := pick.Guarded();
    FreeIsNotGuarded(pick);
    FillingNext(batch * guarded, guarded, rest, pick.sampled, granted, height, allowed);
    BatchNext(batch, pick.Free(), guarded, height);
    OneMore(batch, height);
  }

  lemma FillingNext(added: set<u64>, guarded: set<u64>, rest: set<u64>, sampled: set<u64>, granted: set<u64>,
                    height: u64, allowed: bool)
    requires Filling(added, guarded, rest + {height}, sampled, Grants(granted), guarded - (rest + {height}) - sampled)
    requires granted <= guarded - (rest + {height}) - sampled
    requires Below(rest, {height}) && (height in sampled ==> !allowed)
    ensures var more := if allowed then {height} else {};
            var added' := if height in sampled || allowed then added + {height} else added;
            && height in guarded
            && granted + more <= guarded - rest - sampled
            && Filling(added', guarded, rest, sampled, Grants(granted + more), guarded - rest - sampled)
  {
    hide Filling, Below;
    var more := if allowed then {height} else {};
    var asked := guarded - (rest + {height}) - sampled;
    FillingIsPart(added, guarded, rest + {height}, sampled, Grants(granted), asked);
    FillingAgrees(added, guarded, rest + {height}, sampled, granted, more, asked);
    FillStep(added, guarded, rest, height, sampled, Grants(granted + more), asked);
    AskedNext(guarded, rest, sampled, height);
  }

  lemma BatchNext(batch: set<u64>, free: set<u64>, guarded: set<u64>, height: u64)
    requires free !! guarded && height in guarded
    ensures (batch + {height}) * guarded == batch * guarded + {height}
    ensures (batch + {height}) * free == batch * free
  {}

  lemma AskedNext(guarded: set<u64>, rest: set<u64>, sampled: set<u64>, height: u64)
    requires height in guarded && Below(rest, {height})
    ensures height !in rest
    ensures guarded - rest - sampled ==
            if height in sampled then guarded - (rest + {height}) - sampled
            else guarded - (rest + {height}) - sampled + {height}
  {
    assert height in {height};
  }

  lemma FillingIsPart(added: set<u64>, all: set<u64>, rest: set<u64>, sampled: set<u64>,
                      permits: u64 -> bool, asked: set<u64>)
    requires Filling(added, all, rest, sampled, permits, asked)
    ensures rest <= all
  {}

  lemma CollectEnd(pick: Pick, batch: set<u64>, rest: set<u64>, granted: set<u64>)
    requires Collected(pick, batch, rest, granted) && (rest == {} || |batch| == MAX_PRUNABLE_BATCH_SIZE)
    ensures IsBatch(batch, pick.Free(), pick.Guarded(), pick.sampled, Grants(granted), Asked(pick, rest))
  {
    hide Pick.Free, Pick.Guarded, Filling, IsTop, IsBatch;
    FreeIsNotGuarded(pick);
    var top, added := batch * pick.Free(), batch * pick.Guarded();
    assert top + added == batch;
    FillEnd(top, added, pick.Free(), pick.Guarded(), rest, pick.sampled, Grants(granted), Asked(pick, rest));
  }

  lemma HighestIsAbove(rest: set<u64>, h: u64)
    requires IsHighest(rest, h)
    ensures Below(rest - {h}, {h}) && (rest - {h}) + {h} == rest
  {}

  lemma PrunerKeepsBatchInv(n: Node, step: Step, n': Node)
    requires BatchInv(n) && PrunerStep(n, step, n')
    ensures BatchInv(n')
  {
    hide Collected, Pick.Free, Pick.Guarded, IsTop, Less;
    if step.PrunerPicks? {
      CollectStart(n'.pruner.pick, step.batch);
    } else if step.PrunerTakes? {
      TakingKeepsBatchInv(n, step, n');
    } else if step.PrunerHears? {
      HearingKeepsBatchInv(n, step, n');
    }
  }

  lemma TakingKeepsBatchInv(n: Node, step: Step, n': Node)
    requires BatchInv(n) && PrunerStep(n, step, n') && step.PrunerTakes?
    ensures BatchInv(n')
  {
    hide PrunerStep, Collected, IsHighest, Below;
    TakingFrame(n, step, n');
    var p, h := n.pruner, step.height;
    HighestIsAbove(p.rest, h);
    if h in p.pick.sampled {
      CollectNext(p.pick, p.batch, p.rest - {h}, p.granted, h, false);
      assert p.granted + {} == p.granted;
    }
  }

  lemma HearingKeepsBatchInv(n: Node, step: Step, n': Node)
    requires BatchInv(n) && PrunerStep(n, step, n') && step.PrunerHears?
    ensures BatchInv(n')
  {
    hide PrunerStep, Collected, Below;
    HearingFrame(n, step, n');
    var p := n.pruner;
    CollectNext(p.pick, p.batch, p.rest, p.granted, p.height, p.allowed);
    assert p.batch + {} == p.batch;
  }

  lemma AnswerFrame(n: Node, step: Step, n': Node)
    requires DaserStep(n, step, n') && step.Answer?
    ensures var p, p' := n.pruner, n'.pruner;
            && p.PAsking? && p'.PAnswered?
            && p' == PAnswered(p.pick, p.batch, p.rest, p.granted, p.height, p'.allowed)
            && (p'.allowed ==> p.height in n'.daser.willBePruned)
  {}

  lemma DaserKeepsBatchInv(n: Node, step: Step, n': Node)
    requires BatchInv(n) && DaserStep(n, step, n')
    ensures BatchInv(n')
  {
    hide DaserStep, Collected, Waiting;
    DaserFrame(n, step, n');
    if step.Answer? {
      AnswerFrame(n, step, n');
    }
  }

  lemma SyncerKeepsBatchInv(n: Node, step: Step, n': Node)
    requires BatchInv(n) && SyncerStep(n, step, n')
    ensures BatchInv(n')
  {
    hide SyncerStep, Collected, Waiting;
    var range := SyncerFrame(n, step, n');
  }

  /** Why a block of a finished batch may go. */
  lemma BatchBlock(n: Node, h: u64)
    requires BatchInv(n) && n.pruner.PPicking? && h in n.pruner.batch
    ensures var pick := n.pruner.pick;
            && h in pick.stored
            && if AboveBound(n.bound, h) then h in pick.sampled && !IsEdge(pick.pruned + pick.stored, h)
               else h in pick.sampled || h in n.daser.willBePruned
  {
    var pick := n.pruner.pick;
    if h in pick.Free() {
      FreeBlock(pick.stored, pick.pruned, pick.sampled, pick.afterPruning, pick.afterSampling, h);
    } else {
      hide IsEdge;
      GuardedBlock(pick.stored, pick.afterPruning, pick.afterSampling, h);
      assert h in n.pruner.batch * pick.Guarded();
    }
  }
}
