/** Which headers the syncer asks for next, and why asking again and again completes the chain. */
module SyncerFetch {
  import opened BlockRangeExt
  import opened RangeLists
  import opened BlockRangeSets

  /** `calculate_range_to_fetch`: catch up with the head first, then fill the highest gap from above. */
  function CalculateRangeToFetch(head: u64, synced: seq<BlockRange>, limit: u64): BlockRange
    requires Sorted(synced)
  {
    if synced == [] then
      BlockRange(1, head).TailN(limit)
    else
      var last := synced[|synced| - 1];
      if last.end < head then
        BlockRange(last.end + 1, head).TailN(limit)
      else
        BlockRange(Top(synced[..|synced| - 1]) + 1, SaturatingSub(last.start, 1)).HeadN(limit)
  }

  /** The highest height of a list, 0 when it is empty. */
  function Top(rs: seq<BlockRange>): u64 {
    if rs == [] then 0 else rs[|rs| - 1].end
  }

  /** The highest height worth having. */
  ghost function Target(head: u64, rs: seq<BlockRange>): u64 {
    Max(head, Top(rs))
  }

  /** Every height from 1 to the network head, or to our own head if that is higher. */
  ghost predicate FullySynced(head: u64, rs: seq<BlockRange>) {
    Heights(rs) == BlockRange(1, Target(head, rs)).Span()
  }

  /** Requests of at most `limit` headers needed for a gap. */
  function Rounds(gap: nat, limit: nat): nat
    requires 0 < limit
  {
    if gap == 0 then 0 else 1 + Rounds(if gap <= limit then 0 else gap - limit, limit)
  }

  lemma RoundsStep(gap: nat, limit: nat)
    requires 0 < limit && 0 < gap
    ensures Rounds(gap, limit) == 1 + Rounds(if gap <= limit then 0 else gap - limit, limit)
  {}

  lemma RoundsOfNothing(limit: nat)
    requires 0 < limit
    ensures Rounds(0, limit) == 0
  {}

  lemma {:induction false} RoundsIsCeiling(gap: nat, limit: nat)
    requires 0 < limit
    ensures Rounds(gap, limit) == (gap + limit - 1) / limit
  {
    if 0 < gap <= limit {
      assert (gap + limit - 1) / limit == 1 by { DivStep(gap - 1, limit); SmallDiv(gap - 1, limit); }
    } else if gap == 0 {
      SmallDiv(limit - 1, limit);
    } else {
      RoundsIsCeiling(gap - limit, limit);
      DivStep(gap - 1, limit);
    }
  }

  lemma SmallDiv(a: nat, b: nat)
    requires a < b
    ensures a / b == 0
  {}

  lemma DivStep(a: nat, b: nat)
    requires 0 < b
    ensures (a + b) / b == a / b + 1
  {
    var q, r := a / b, a % b;
    assert a == b * q + r;
    assert a + b == b * (q + 1) + r;
    DivUnique(a + b, b, q + 1, r);
  }

  lemma DivUnique(x: nat, b: nat, q: nat, r: nat)
    requires r < b && x == b * q + r
    ensures x / b == q
  {
    var p, s := x / b, x % b;
    assert x == b * p + s;
    MoreIsAtLeastOneMore(b, p, q);
    MoreIsAtLeastOneMore(b, q, p);
  }

  lemma MoreIsAtLeastOneMore(b: nat, p: nat, q: nat)
    ensures p < q ==> b * p + b <= b * q
  {
    if p < q {
      var d := q - p - 1;
      assert b * q == b * p + b + b * d;
    }
  }

  /** Requests needed for the gaps between the ranges and below the first one. */
  function GapDemand(rs: seq<BlockRange>, limit: nat): nat
    requires Sorted(rs) && 0 < limit
  {
    if rs == [] then 0
    else
      var front, last := rs[..|rs| - 1], rs[|rs| - 1];
      Rounds(last.start - 1 - Top(front), limit) + GapDemand(front, limit)
  }

  /** Requests needed in all: one ceiling per gap, the one up to the head included. */
  function Demand(head: u64, rs: seq<BlockRange>, limit: nat): nat
    requires Sorted(rs) && 0 < limit
  {
    Rounds(if Top(rs) < head then head - Top(rs) else 0, limit) + GapDemand(rs, limit)
  }

  /**
   * Which heights the batch asks for: above the synced head the next ones, lowest first, or all but
   * `u64::MAX` if there are fewer than the limit; otherwise those right below the top range, highest first,
   * down to the range before it.
   */
  lemma BatchIsNext(head: u64, rs: seq<BlockRange>, limit: u64, h: u64)
    requires Sorted(rs)
    ensures var batch := CalculateRangeToFetch(head, rs, limit);
            if Top(rs) < head || rs == [] then
              batch.Contains(h) <==> Top(rs) < h <= head && h - Top(rs) <= limit && h < U64_MAX
            else
              var top, below := rs[|rs| - 1], Top(rs[..|rs| - 1]);
              batch.Contains(h) <==> below < h < top.start && top.start - h <= limit
  {}

  /** The batch asks for nothing that is synced, fits the limit, and the ranges would accept it. */
  lemma BatchIsInsertable(head: u64, rs: seq<BlockRange>, limit: u64)
    requires Sorted(rs)
    ensures var batch := CalculateRangeToFetch(head, rs, limit);
            && batch.Span() !! Heights(rs)
            && |batch.Span()| <= limit
            && (!batch.IsEmpty() ==> Insertable(Heights(rs), batch) && batch.end < U64_MAX)
  {
    var batch := CalculateRangeToFetch(head, rs, limit);
    batch.SpanSize();
    if rs == [] {
      HeightsEmpty();
    } else {
      Extremes(rs);
      var last := rs[|rs| - 1];
      if head <= last.end {
        GapIsMissing(rs);
        if !batch.IsEmpty() {
          assert batch.Contains(batch.end) && batch.Contains(batch.start);
          assert last.Contains(last.start);
        }
      } else if !batch.IsEmpty() {
        assert batch.Contains(batch.start);
      }
    }
  }

  /** Nothing lies between the last range and the one before it. */
  lemma GapIsMissing(rs: seq<BlockRange>)
    requires Sorted(rs) && rs != []
    ensures forall h: u64 :: h in Heights(rs) && h < rs[|rs| - 1].start ==> h <= Top(rs[..|rs| - 1])
  {}

  /** Inserting the batch into a canonical list gives `out`, and that is worth one request. */
  ghost predicate Answers(head: u64, rs: seq<BlockRange>, limit: u64, out: seq<BlockRange>)
    requires Sorted(rs) && 0 < limit
  {
    var batch := CalculateRangeToFetch(head, rs, limit);
    && Canonical(out)
    && Heights(out) == Heights(rs) + batch.Span()
    && Demand(head, out, limit) == Demand(head, rs, limit) - 1
  }

  lemma AddLast(front: seq<BlockRange>, last: BlockRange, limit: nat)
    requires Canonical(front) && last.Valid() && 0 < limit
    requires front != [] ==> Top(front) + 1 < last.start
    ensures Canonical(front + [last]) && Top(front + [last]) == last.end
    ensures Heights(front + [last]) == Heights(front) + last.Span()
    ensures GapDemand(front + [last], limit) == Rounds(last.start - 1 - Top(front), limit) + GapDemand(front, limit)
  {
    hide Heights, Rounds;
    var rs := front + [last];
    assert rs[..|rs| - 1] == front && rs[|rs| - 1] == last;
    HeightsConcat(front, [last]);
    HeightsSingle(last);
    SeparatedConcat(front, [last], 1);
  }

  lemma SpanJoin(a: u64, b: u64, c: u64)
    requires a <= b < c
    ensures BlockRange(a, b).Span() + BlockRange(b + 1, c).Span() == BlockRange(a, c).Span()
  {}

  lemma UnionCommutes(a: set<u64>, b: set<u64>)
    ensures a + b == b + a
  {}

  lemma FromNothing(head: u64, limit: u64) returns (out: seq<BlockRange>)
    requires 0 < limit && 0 < head < U64_MAX
    ensures Answers(head, [], limit, out)
  {
    var batch := CalculateRangeToFetch(head, [], limit);
    assert batch.start == 1 && batch.end == Min(head, limit);
    out := [] + [batch];
    HeightsEmpty();
    AddLast([], batch, limit);
  }

  lemma SplitLast(front: seq<BlockRange>, last: BlockRange)
    requires Canonical(front + [last])
    ensures Canonical(front) && last.Valid() && Top(front) < last.start && Top(front + [last]) == last.end
    ensures front != [] ==> Top(front) + 1 < last.start
  {
    var rs := front + [last];
    assert rs[|rs| - 1] == last;
    assert forall i :: 0 <= i < |front| ==> rs[i] == front[i];
  }

  /** The batch for a list `front + [last]`. */
  lemma BatchFor(head: u64, front: seq<BlockRange>, last: BlockRange, limit: u64)
    requires Canonical(front + [last]) && 0 < limit
    ensures Canonical(front) && last.Valid() && Top(front) < last.start && Top(front + [last]) == last.end
    ensures front != [] ==> Top(front) + 1 < last.start
    ensures var batch := CalculateRangeToFetch(head, front + [last], limit);
            if last.end < head then
              head < U64_MAX ==> batch == BlockRange(last.end + 1, if head - last.end <= limit then head else last.end + limit)
            else if last.start - 1 - Top(front) <= limit then
              batch == BlockRange(Top(front) + 1, last.start - 1)
            else
              batch == BlockRange(last.start - limit, last.start - 1)
  {
    SplitLast(front, last);
    var rs := front + [last];
    assert rs[|rs| - 1] == last && rs[..|rs| - 1] == front;
  }

  lemma CatchUp(head: u64, front: seq<BlockRange>, last: BlockRange, limit: u64) returns (out: seq<BlockRange>)
    requires Canonical(front + [last]) && 0 < limit && last.end < head < U64_MAX
    ensures Answers(head, front + [last], limit, out)
  {
    hide Heights, BlockRange.Span, CalculateRangeToFetch, Rounds, GapDemand;
    BatchFor(head, front, last, limit);
    var batch := CalculateRangeToFetch(head, front + [last], limit);
    RoundsStep(head - last.end, limit);
    var longer := BlockRange(last.start, batch.end);
    AddLast(front, last, limit);
    AddLast(front, longer, limit);
    SpanJoin(last.start, last.end, batch.end);
    out := front + [longer];
    assert last == BlockRange(last.start, last.end);
    UnionAssociative(Heights(front), last.Span(), batch.Span());
  }

  /** The limit cuts the gap, or the gap reaches down to height 1: the last range grows downwards. */
  lemma GrowDown(head: u64, front: seq<BlockRange>, last: BlockRange, limit: u64) returns (out: seq<BlockRange>)
    requires Canonical(front + [last]) && 0 < limit && head <= last.end
    requires limit < last.start - 1 - Top(front) || (front == [] && 1 < last.start)
    ensures Answers(head, front + [last], limit, out)
  {
    hide Heights, BlockRange.Span, CalculateRangeToFetch, Rounds, GapDemand;
    BatchFor(head, front, last, limit);
    var batch := CalculateRangeToFetch(head, front + [last], limit);
    RoundsStep(last.start - 1 - Top(front), limit);
    var longer := BlockRange(batch.start, last.end);
    out := front + [longer];
    AddLast(front, last, limit);
    AddLast(front, longer, limit);
    assert GapDemand(out, limit) == GapDemand(front + [last], limit) - 1;
    assert Heights(out) == Heights(front + [last]) + batch.Span() by {
      SpanJoin(batch.start, batch.end, last.end);
      assert last == BlockRange(batch.end + 1, last.end);
      UnionCommutes(last.Span(), batch.Span());
      UnionAssociative(Heights(front), last.Span(), batch.Span());
    }
  }

  /** The batch closes the gap to the range before the last one. */
  lemma CloseGap(head: u64, base: seq<BlockRange>, prev: BlockRange, last: BlockRange, limit: u64)
    returns (out: seq<BlockRange>)
    requires Canonical(base + [prev] + [last]) && 0 < limit
    requires head <= last.end && last.start - 1 - prev.end <= limit
    ensures Answers(head, base + [prev] + [last], limit, out)
  {
    hide Heights, BlockRange.Span, CalculateRangeToFetch, Rounds, GapDemand;
    var front := base + [prev];
    BatchFor(head, front, last, limit);
    BatchFor(head, base, prev, limit);
    var batch := CalculateRangeToFetch(head, front + [last], limit);
    RoundsStep(last.start - 1 - prev.end, limit);
    RoundsOfNothing(limit);
    var merged := BlockRange(prev.start, last.end);
    out := base + [merged];
    AddLast(front, last, limit);
    AddLast(base, prev, limit);
    AddLast(base, merged, limit);
    JoinedHeights(Heights(base), prev, batch, last);
  }

  lemma JoinedHeights(base: set<u64>, prev: BlockRange, batch: BlockRange, last: BlockRange)
    requires prev.Valid() && batch.Valid() && last.Valid()
    requires batch.start == prev.end + 1 && last.start == batch.end + 1
    ensures ((base + prev.Span()) + last.Span()) + batch.Span() == base + BlockRange(prev.start, last.end).Span()
  {}

  lemma RequestAtLast(head: u64, front: seq<BlockRange>, last: BlockRange, limit: u64) returns (out: seq<BlockRange>)
    requires Canonical(front + [last]) && 0 < limit
    requires !CalculateRangeToFetch(head, front + [last], limit).IsEmpty()
    requires head < U64_MAX || last.end == U64_MAX
    ensures Answers(head, front + [last], limit, out)
  {
    hide Answers, Heights, CalculateRangeToFetch;
    BatchFor(head, front, last, limit);
    if last.end < head {
      out := CatchUp(head, front, last, limit);
    } else if limit < last.start - 1 - Top(front) || front == [] {
      out := GrowDown(head, front, last, limit);
    } else {
      var base, prev := front[..|front| - 1], front[|front| - 1];
      assert front == base + [prev];
      out := CloseGap(head, base, prev, last, limit);
    }
  }

  /** Every request that is not empty brings the list one request closer, whatever the gaps look like. */
  lemma RequestReducesDemand(head: u64, rs: seq<BlockRange>, limit: u64) returns (out: seq<BlockRange>)
    requires Canonical(rs) && 0 < limit && !CalculateRangeToFetch(head, rs, limit).IsEmpty()
    requires head < U64_MAX || Top(rs) == U64_MAX
    ensures Answers(head, rs, limit, out)
  {
    hide Answers, Heights;
    if rs == [] {
      out := FromNothing(head, limit);
    } else {
      var front, last := rs[..|rs| - 1], rs[|rs| - 1];
      assert rs == front + [last];
      out := RequestAtLast(head, front, last, limit);
    }
  }

  /** The syncer stops asking only when nothing is missing. */
  lemma NothingToFetch(head: u64, rs: seq<BlockRange>, limit: u64)
    requires Canonical(rs) && 0 < limit && CalculateRangeToFetch(head, rs, limit).IsEmpty()
    requires head < U64_MAX || Top(rs) == U64_MAX
    ensures Demand(head, rs, limit) == 0 && FullySynced(head, rs)
  {
    if rs == [] {
      assert head == 0;
      HeightsEmpty();
    } else {
      var front, last := rs[..|rs| - 1], rs[|rs| - 1];
      assert rs == front + [last];
      NoGapLeft(head, front, last, limit);
      assert rs == [last];
      NoDemandLeft(head, last, limit);
    }
  }

  lemma NoGapLeft(head: u64, front: seq<BlockRange>, last: BlockRange, limit: u64)
    requires Canonical(front + [last]) && 0 < limit
    requires CalculateRangeToFetch(head, front + [last], limit).IsEmpty()
    requires head < U64_MAX || last.end == U64_MAX
    ensures front == [] && last.start == 1 && head <= last.end
  {
    hide CalculateRangeToFetch;
    BatchFor(head, front, last, limit);
  }

  lemma NoDemandLeft(head: u64, last: BlockRange, limit: u64)
    requires last.Valid() && last.start == 1 && head <= last.end && 0 < limit
    ensures Demand(head, [last], limit) == 0 && FullySynced(head, [last])
  {
    hide Heights;
    HeightsEmpty();
    AddLast([], last, limit);
    assert [] + [last] == [last] && last == BlockRange(1, last.end);
  }

  /**
   * Fetching and inserting until there is nothing to ask for. The chain is complete at the end
   * exactly when the head is below `u64::MAX` or that height was already there, and then the
   * number of requests is the sum of the ceilings.
   */
  method SyncUntilDone(synced: BlockRanges, head: u64, limit: u64) returns (requests: nat)
    requires Canonical(synced.ranges) && 0 < limit
    modifies synced
    ensures Canonical(synced.ranges) && old(synced.Contents()) <= synced.Contents()
    ensures FullySynced(head, synced.ranges) <==> (head < U64_MAX || U64_MAX in old(synced.Contents()))
    ensures FullySynced(head, synced.ranges) ==> requests == Demand(head, old(synced.ranges), limit)
  {
    hide Heights;
    requests := 0;
    TopIsMember(synced.ranges);
    ghost var reachable := head < U64_MAX || U64_MAX in synced.Contents();
    while true
      invariant Canonical(synced.ranges) && old(synced.Contents()) <= synced.Contents()
      invariant U64_MAX in synced.Contents() <==> U64_MAX in old(synced.Contents())
      invariant U64_MAX in synced.Contents() <==> Top(synced.ranges) == U64_MAX
      invariant reachable ==> requests + Demand(head, synced.ranges, limit) == Demand(head, old(synced.ranges), limit)
      decreases AllHeights() - synced.Contents()
    {
      ghost var rs := synced.ranges;
      var batch := CalculateRangeToFetch(head, synced.ranges, limit);
      BatchIsInsertable(head, synced.ranges, limit);
      if batch.IsEmpty() { break; }
      var res := synced.InsertRelaxed(batch);
      assert res.Ok?;
      requests := requests + 1;
      if reachable {
        var out := RequestReducesDemand(head, rs, limit);
        CanonicalUnique(synced.ranges, out);
      }
      TopIsMember(synced.ranges);
      assert batch.start in batch.Span();
    }
    if reachable {
      NothingToFetch(head, synced.ranges, limit);
    } else {
      assert U64_MAX in BlockRange(1, Target(head, synced.ranges)).Span();
    }
  }

  lemma TopIsMember(rs: seq<BlockRange>)
    requires Sorted(rs)
    ensures U64_MAX in Heights(rs) <==> Top(rs) == U64_MAX
  {}
}
