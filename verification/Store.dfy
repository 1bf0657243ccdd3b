/** The header store: what is stored, sampled and pruned, and which samples belong to which header. */
module StoreModel {
  import opened BlockRangeExt
  import opened RangeLists
  import opened BlockRangeSets

  /** A sample CID names the height it belongs to. */
  datatype Cid = Cid(height: u64, row: nat, col: nat)

  datatype StoreError =
    | NotFound
    | ConstraintsNotMet(error: BlockRangesError)
    | NeighborsVerificationFailed
    | HashExists

  datatype Store = Store(stored: set<u64>, sampled: set<u64>, pruned: set<u64>, cids: map<u64, set<Cid>>)

  /** Heights the node has or once had. */
  function Synced(s: Store): set<u64> { s.stored + s.pruned }

  ghost function Inserted(s: Store, range: BlockRange): Store {
    s.(stored := s.stored + range.Span(), sampled := s.sampled - range.Span(), pruned := s.pruned - range.Span())
  }

  /** New CIDs are appended to the ones already known. */
  function Recorded(s: Store, height: u64, cids: set<Cid>): Store {
    s.(cids := s.cids[height := (if height in s.cids then s.cids[height] else {}) + cids])
  }

  function MarkedAsSampled(s: Store, height: u64): Store {
    s.(sampled := s.sampled + {height})
  }

  function Removed(s: Store, height: u64): Store {
    Store(s.stored - {height}, s.sampled - {height}, s.pruned + {height}, s.cids - {height})
  }

  /** The in-memory store. Header contents and their verification are not part of this model. */
  class InMemoryStore {
    const headerRanges: BlockRanges
    const sampledRanges: BlockRanges
    const prunedRanges: BlockRanges
    var samplingData: map<u64, seq<Cid>>

    ghost predicate Valid()
      reads this, headerRanges, sampledRanges, prunedRanges
    {
      && headerRanges != sampledRanges && headerRanges != prunedRanges && sampledRanges != prunedRanges
      && Canonical(headerRanges.ranges) && Canonical(sampledRanges.ranges) && Canonical(prunedRanges.ranges)
    }

    ghost function View(): Store
      reads this, headerRanges, sampledRanges, prunedRanges
    {
      Store(headerRanges.Contents(), sampledRanges.Contents(), prunedRanges.Contents(), Listed(samplingData))
    }

    constructor ()
      ensures Valid() && fresh(headerRanges) && fresh(sampledRanges) && fresh(prunedRanges)
      ensures View() == Store({}, {}, {}, map[])
    {
      headerRanges := new BlockRanges();
      sampledRanges := new BlockRanges();
      prunedRanges := new BlockRanges();
      samplingData := map[];
      new;
      HeightsEmpty();
    }

    /**
     * Inserts the headers of a range, or none. The range must meet the insertion rule, its ends must
     * verify against those neighbours that are stored, and no header hash may be known already.
     */
    method Insert(headers: Option<BlockRange>, verifies: (bool, bool) -> bool, hashExists: bool)
      returns (res: Result<(), StoreError>)
      requires Valid()
      modifies headerRanges, sampledRanges, prunedRanges
      ensures Valid()
      ensures headers.None? ==> res.Ok? && View() == old(View())
      ensures headers.Some? ==>
                var stored, range := old(View()).stored, headers.value;
                var verified := verifies(range.start - 1 in stored, range.end + 1 in stored);
                && (res.Ok? <==> Insertable(stored, range) && verified && !hashExists)
                && View() == (if res.Ok? then Inserted(old(View()), range) else old(View()))
                && (res.Err? ==> if !Insertable(stored, range) then res.error.ConstraintsNotMet?
                                 else res.error == if verified then HashExists else NeighborsVerificationFailed)
      ensures headers.Some? && res.Ok? ==>
                forall h: u64 ::
                  var inserted := headers.value.start <= h <= headers.value.end;
                  && (h in View().stored <==> inserted || h in old(View()).stored)
                  && (h in View().sampled <==> !inserted && h in old(View()).sampled)
                  && (h in View().pruned <==> !inserted && h in old(View()).pruned)
    {
      if headers.None? { return Ok(()); }
      var range := headers.value;
      hide Heights, BlockRange.Span, Insertable;
      var checked := headerRanges.CheckInsertionConstraints(range);
      if checked.Err? { return Err(ConstraintsNotMet(checked.error)); }
      if !verifies(checked.value.0, checked.value.1) { return Err(NeighborsVerificationFailed); }
      if hashExists { return Err(HashExists); }
      InsertableIsValid(headerRanges.Contents(), range);
      var done := headerRanges.InsertRelaxed(range);
      assert done.Ok?;
      done := sampledRanges.RemoveRelaxed(range);
      assert done.Ok?;
      done := prunedRanges.RemoveRelaxed(range);
      assert done.Ok?;
      InsertedHeights(old(View()), range);
      res := Ok(());
    }

    method UpdateSamplingMetadata(height: u64, cids: seq<Cid>) returns (res: Result<(), StoreError>)
      requires Valid()
      modifies this`samplingData
      ensures Valid() && (res.Ok? <==> height in old(View()).stored)
      ensures View() == if res.Ok? then Recorded(old(View()), height, Members(cids)) else old(View())
      ensures res.Ok? ==>
                && height in samplingData && (height in old(samplingData) ==> old(samplingData)[height] <= samplingData[height])
                && forall c :: c in samplingData[height] <==>
                     c in cids || (height in old(samplingData) && c in old(samplingData)[height])
    {
      hide Heights;
      var stored := headerRanges.Contains(height);
      if !stored { return Err(NotFound); }
      var all := cids;
      if height in samplingData {
        all := AppendMissing(samplingData[height], cids);
      }
      assert forall c :: c in all <==> c in Members(all);
      assert forall c :: c in cids <==> c in Members(cids);
      ListedUpdate(samplingData, height, all);
      assert {} + Members(cids) == Members(cids);
      samplingData := samplingData[height := all];
      res := Ok(());
    }

    method MarkAsSampled(height: u64) returns (res: Result<(), StoreError>)
      requires Valid()
      modifies sampledRanges
      ensures Valid() && (res.Ok? <==> height in old(View()).stored)
      ensures View() == if res.Ok? then MarkedAsSampled(old(View()), height) else old(View())
      ensures res.Ok? ==> sampledRanges.Contents() == old(sampledRanges.Contents()) + {height}
    {
      hide Heights;
      var stored := headerRanges.Contains(height);
      if !stored { return Err(NotFound); }
      ZeroIsNoMember(headerRanges.ranges);
      SingleSpan(height);
      var done := sampledRanges.InsertRelaxed(BlockRange(height, height));
      assert done.Ok?;
      res := Ok(());
    }

    method RemoveHeight(height: u64) returns (res: Result<(), StoreError>)
      requires Valid()
      modifies this`samplingData, headerRanges, sampledRanges, prunedRanges
      ensures Valid() && (res.Ok? <==> height in old(View()).stored)
      ensures View() == if res.Ok? then Removed(old(View()), height) else old(View())
      ensures res.Ok? ==>
                && headerRanges.Contents() == old(headerRanges.Contents()) - {height}
                && sampledRanges.Contents() == old(sampledRanges.Contents()) - {height}
                && prunedRanges.Contents() == old(prunedRanges.Contents()) + {height}
                && samplingData == old(samplingData) - {height}
    {
      hide Heights;
      var stored := headerRanges.Contains(height);
      if !stored { return Err(NotFound); }
      ZeroIsNoMember(headerRanges.ranges);
      SingleSpan(height);
      samplingData := samplingData - {height};
      var done := headerRanges.RemoveRelaxed(BlockRange(height, height));
      assert done.Ok?;
      done := sampledRanges.RemoveRelaxed(BlockRange(height, height));
      assert done.Ok?;
      done := prunedRanges.InsertRelaxed(BlockRange(height, height));
      assert done.Ok?;
      res := Ok(());
    }
  }

  lemma InsertedHeights(s: Store, range: BlockRange)
    ensures forall h: u64 ::
              var inserted := range.start <= h <= range.end;
              && (h in Inserted(s, range).stored <==> inserted || h in s.stored)
              && (h in Inserted(s, range).sampled <==> !inserted && h in s.sampled)
              && (h in Inserted(s, range).pruned <==> !inserted && h in s.pruned)
  {}

  function Members(cids: seq<Cid>): set<Cid> { set c | c in cids }

  function Listed(data: map<u64, seq<Cid>>): map<u64, set<Cid>> { map h | h in data :: Members(data[h]) }

  lemma ListedUpdate(data: map<u64, seq<Cid>>, height: u64, cids: seq<Cid>)
    ensures Listed(data[height := cids]) == Listed(data)[height := Members(cids)]
  {}

  lemma MembersAppend(cids: seq<Cid>, c: Cid)
    ensures Members(cids + [c]) == Members(cids) + {c}
  {}

  lemma InsertableIsValid(stored: set<u64>, range: BlockRange)
    requires Insertable(stored, range)
    ensures range.Valid()
  {}

  /** Appends what is not listed yet. */
  method AppendMissing(known: seq<Cid>, cids: seq<Cid>) returns (all: seq<Cid>)
    ensures known <= all && Members(all) == Members(known) + Members(cids)
  {
    all := known;
    for i := 0 to |cids|
      invariant known <= all && Members(all) == Members(known) + Members(cids[..i])
    {
      assert cids[..i + 1] == cids[..i] + [cids[i]];
      MembersAppend(cids[..i], cids[i]);
      MembersAppend(all, cids[i]);
      if cids[i] !in all {
        all := all + [cids[i]];
      }
    }
    assert cids[..|cids|] == cids;
  }
}
