/** `BlockRanges`: a set of header heights kept as a sorted list of ranges that is spliced in place. */
module BlockRangeSets {
  import opened BlockRangeExt
  import opened RangeLists

  datatype BlockRangesError =
    | UnsortedBlockRanges
    | InvalidBlockRange(range: BlockRange)
    | BlockRangeOverlap(range: BlockRange, overlap: BlockRange)
    | NoAdjacentNeighbors(range: BlockRange)

  /** The heights a header can have. */
  ghost function AllHeights(): set<u64> { BlockRange(1, U64_MAX).Span() }

  /** `top` holds the highest `min(limit, |all|)` members of `all`. */
  ghost predicate IsTop(top: set<u64>, all: set<u64>, limit: u64) {
    && top <= all
    && |top| == (if |all| <= limit then |all| else limit)
    && forall a, b :: a in all - top && b in top ==> a < b
  }

  /** The lowest `limit` members, or all of them. */
  ghost predicate IsBottom(low: set<u64>, all: set<u64>, limit: u64) {
    && low <= all
    && |low| == (if |all| <= limit then |all| else limit)
    && forall a, b :: a in all - low && b in low ==> b < a
  }

  /** Height `u64::MAX` is a range on its own. */
  predicate EndsWithMaxAlone(rs: seq<BlockRange>) {
    rs != [] && rs[|rs| - 1] == BlockRange(U64_MAX, U64_MAX)
  }

  /** Members with a missing neighbour. */
  ghost function EdgesOf(all: set<u64>): set<u64> {
    set h: u64 | IsEdge(all, h)
  }

  ghost predicate IsEdge(all: set<u64>, h: u64) {
    h in all && (h - 1 !in all || h + 1 !in all)
  }

  /** `to_insert` may join the stored ranges: the rule documented for `Store::insert`. */
  ghost predicate Insertable(stored: set<u64>, range: BlockRange) {
    && range.Valid()
    && stored !! range.Span()
    && (|| (forall h :: h in stored ==> h < range.start)
        || range.start - 1 in stored
        || range.end + 1 in stored)
  }

  /** The hint that goes with an overlap error. */
  function CalcOverlap(toInsert: BlockRange, first: BlockRange, last: BlockRange): BlockRange {
    BlockRange(Max(first.start, toInsert.start), Min(last.end, toInsert.end))
  }

  class BlockRanges {
    var ranges: seq<BlockRange>

    ghost function Contents(): set<u64>
      reads this
    {
      Heights(ranges)
    }

    constructor ()
      ensures ranges == []
    {
      ranges := [];
    }

    constructor Clone(other: BlockRanges)
      ensures ranges == other.ranges
    {
      ranges := other.ranges;
    }

    /** Accepts exactly the sorted lists, touching neighbours included. */
    static method FromVec(rs: seq<BlockRange>) returns (res: Result<BlockRanges, BlockRangesError>)
      ensures res.Ok? <==> Sorted(rs)
      ensures res.Ok? ==> fresh(res.value) && res.value.ranges == rs
      ensures res.Err? ==> exists i :: 0 <= i < |rs| && Sorted(rs[..i]) && !Sorted(rs[..i + 1]) &&
                             res.error == if rs[i].Valid() then UnsortedBlockRanges else InvalidBlockRange(rs[i])
    {
      for i := 0 to |rs|
        invariant Sorted(rs[..i])
      {
        if !rs[i].Valid() {
          assert rs[..i + 1][i] == rs[i];
          return Err(InvalidBlockRange(rs[i]));
        }
        if 0 < i && rs[i].start <= rs[i - 1].end {
          assert rs[..i + 1][i] == rs[i] && rs[..i + 1][i - 1] == rs[i - 1];
          return Err(UnsortedBlockRanges);
        }
        assert rs[..i + 1] == rs[..i] + [rs[i]];
        SeparatedConcat(rs[..i], [rs[i]], 0);
      }
      assert rs[..|rs|] == rs;
      var out := new BlockRanges();
      out.ranges := rs;
      res := Ok(out);
    }

    method Contains(height: u64) returns (b: bool)
      ensures b <==> height in Contents()
    {
      for i := 0 to |ranges|
        invariant forall j :: 0 <= j < i ==> !ranges[j].Contains(height)
      {
        if ranges[i].Contains(height) { return true; }
      }
      b := false;
    }

    /** The sum of the lengths: it always fits, because height 0 is not a member. */
    method Len() returns (n: u64)
      requires Sorted(ranges)
      ensures n == |Contents()|
    {
      n := 0;
      for i := 0 to |ranges|
        invariant n == Size(ranges[..i])
      {
        assert ranges[..i + 1][..i] == ranges[..i];
        var next: u64 := n + ranges[i].Len() by {
          ranges[i].SpanSize();
          assert n + ranges[i].Len() == Size(ranges[..i + 1]);
        }
        ranges[i].SpanSize();
        n := next;
      }
      assert ranges[..|ranges|] == ranges;
      SizeIsCardinality(ranges);
    }

    method Head() returns (head: Option<u64>)
      requires Sorted(ranges)
      ensures head.None? <==> Contents() == {}
      ensures head.Some? ==> head.value in Contents() && forall h :: h in Contents() ==> h <= head.value
    {
      if ranges == [] { HeightsEmpty(); return None; }
      Extremes(ranges);
      head := Some(ranges[|ranges| - 1].end);
    }

    method Tail() returns (tail: Option<u64>)
      requires Sorted(ranges)
      ensures tail.None? <==> Contents() == {}
      ensures tail.Some? ==> tail.value in Contents() && forall h :: h in Contents() ==> tail.value <= h
    {
      if ranges == [] { HeightsEmpty(); return None; }
      Extremes(ranges);
      tail := Some(ranges[0].start);
    }

    /** First and last index of the ranges that overlap or touch `range`. */
    method FindAffectedRanges(range: BlockRange) returns (found: Option<(nat, nat)>)
      requires Sorted(ranges) && range.Valid()
      ensures found.Some? ==> AffectedSpan(ranges, range, found.value.0, found.value.1)
      ensures found.None? ==> forall i :: 0 <= i < |ranges| ==> !Affected(ranges[i], range)
    {
      found := None;
      for i := 0 to |ranges|
        invariant found.None? ==> forall j :: 0 <= j < i ==> !Affected(ranges[j], range)
        invariant found.Some? ==> found.value.0 <= found.value.1 == i - 1
        invariant found.Some? ==> forall j :: 0 <= j < i ==> (Affected(ranges[j], range) <==> found.value.0 <= j)
      {
        if OverlapsOrTouches(ranges[i], range) {
          found := Some((if found.None? then i else found.value.0, i));
        } else if found.Some? {
          assert Affected(ranges[i - 1], range);
          assert range.end + 1 < ranges[i].start;
          assert forall j :: i < j < |ranges| ==> ranges[i].end < ranges[j].start;
          return;
        }
      }
    }

    /** Inserts a range, overlapping or not. Fails only on an invalid range. */
    method InsertRelaxed(range: BlockRange) returns (res: Result<(), BlockRangesError>)
      requires Sorted(ranges)
      modifies this
      ensures !range.Valid() ==> res == Err(InvalidBlockRange(range)) && ranges == old(ranges)
      ensures range.Valid() ==> res.Ok? && Sorted(ranges) && Contents() == old(Contents()) + range.Span()
      ensures old(Canonical(ranges)) ==> Canonical(ranges)
    {
      if !range.Valid() { return Err(InvalidBlockRange(range)); }
      res := Ok(());
      var found := FindAffectedRanges(range);
      if found.Some? {
        var (s, e) := found.value;
        MergeIsUnion(ranges, range, s, e);
        var merged := BlockRange(Min(ranges[s].start, range.start), Max(ranges[e].end, range.end));
        ranges := ranges[..s] + [merged] + ranges[e + 1..];
        return;
      }
      var k := 0;
      while k < |ranges| && !(range.end < ranges[k].start)
        invariant 0 <= k <= |ranges|
        invariant forall j :: 0 <= j < k ==> ranges[j].end < range.start
      {
        assert !Affected(ranges[k], range);
        k := k + 1;
      }
      PlaceIsUnion(ranges, range, k);
      ranges := ranges[..k] + [range] + ranges[k..];
    }

    /** Removes a range, present or not. Fails only on an invalid range. */
    method RemoveRelaxed(range: BlockRange) returns (res: Result<(), BlockRangesError>)
      requires Sorted(ranges)
      modifies this
      ensures !range.Valid() ==> res == Err(InvalidBlockRange(range)) && ranges == old(ranges)
      ensures range.Valid() ==> res.Ok? && Sorted(ranges) && Contents() == old(Contents()) - range.Span()
      ensures old(Canonical(ranges)) ==> Canonical(ranges)
    {
      if !range.Valid() { return Err(InvalidBlockRange(range)); }
      res := Ok(());
      var found := FindAffectedRanges(range);
      if found.None? {
        UnaffectedIsDisjoint(ranges, range);
        return;
      }
      var (s, e) := found.value;
      RemoveIsDifference(ranges, range, s, e);
      SpliceInSteps(ranges, s, e, Remainder(ranges[s], ranges[e], range));
      var first, last := ranges[s], ranges[e];
      ranges := ranges[..s] + ranges[e + 1..];
      if range.end < last.end {
        ranges := ranges[..s] + [BlockRange(range.end + 1, last.end)] + ranges[s..];
      }
      if first.start < range.start {
        ranges := ranges[..s] + [BlockRange(first.start, range.start - 1)] + ranges[s..];
      }
    }

    /** Takes the highest height out. */
    method PopHead() returns (head: Option<u64>)
      requires Sorted(ranges)
      modifies this
      ensures head.None? <==> old(ranges) == []
      ensures head.None? ==> ranges == []
      ensures head.Some? ==> ranges == WithoutHead(old(ranges))
      ensures head.Some? ==> head.value in old(Contents()) && Contents() == old(Contents()) - {head.value}
      ensures head.Some? ==> Below(Contents(), {head.value})
      ensures Sorted(ranges) && (old(Canonical(ranges)) ==> Canonical(ranges))
    {
      if ranges == [] { return None; }
      WithoutHeadHeights(ranges);
      HeadIsHighest(ranges);
      var last := ranges[|ranges| - 1];
      head := Some(last.end);
      last.SpanSize();
      if last.Len() == 1 {
        ranges := ranges[..|ranges| - 1];
      } else {
        ranges := ranges[|ranges| - 1 := BlockRange(last.start, last.end - 1)];
      }
    }

    /** Takes the lowest height out. */
    method PopTail() returns (tail: Option<u64>)
      requires Sorted(ranges)
      modifies this
      ensures tail.None? <==> old(ranges) == []
      ensures tail.None? ==> ranges == []
      ensures tail.Some? ==> ranges == WithoutTail(old(ranges))
      ensures tail.Some? ==> tail.value in old(Contents()) && Contents() == old(Contents()) - {tail.value}
      ensures tail.Some? ==> Below({tail.value}, Contents())
      ensures Sorted(ranges) && (old(Canonical(ranges)) ==> Canonical(ranges))
    {
      if ranges == [] { return None; }
      WithoutTailHeights(ranges);
      TailIsLowest(ranges);
      var first := ranges[0];
      tail := Some(first.start);
      first.SpanSize();
      if first.Len() == 1 {
        ranges := ranges[1..];
      } else {
        ranges := ranges[0 := BlockRange(first.start + 1, first.end)];
      }
    }

    /**
     * Decides whether `toInsert` may be stored. The flags say whether the left and the right
     * neighbour are present. An overlap error names a range inside `toInsert` that covers
     * every shared height.
     */
    method CheckInsertionConstraints(toInsert: BlockRange) returns (res: Result<(bool, bool), BlockRangesError>)
      requires Sorted(ranges)
      ensures res.Ok? <==> Insertable(Contents(), toInsert)
      ensures res.Ok? ==> res.value == (toInsert.start - 1 in Contents(), toInsert.end + 1 in Contents())
      ensures res.Err? ==>
                if !toInsert.Valid() then res.error == InvalidBlockRange(toInsert)
                else if Contents() !! toInsert.Span() then res.error == NoAdjacentNeighbors(toInsert)
                else res.error.BlockRangeOverlap? && res.error.range == toInsert &&
                     Contents() * toInsert.Span() <= res.error.overlap.Span() <= toInsert.Span()
    {
      hide Heights, BlockRange.Span;
      if !toInsert.Valid() { return Err(InvalidBlockRange(toInsert)); }
      if ranges == [] {
        HeightsEmpty();
        return Ok((false, false));
      }
      Extremes(ranges);
      var headRange := ranges[|ranges| - 1];
      if headRange.IsLeftOf(toInsert) {
        AboveHead(ranges, toInsert);
        return Ok((headRange.IsAdjacent(toInsert), false));
      }
      var found := FindAffectedRanges(toInsert);
      if found.None? {
        UnaffectedIsDisjoint(ranges, toInsert);
        UnaffectedHasNoNeighbours(ranges, toInsert);
        return Err(NoAdjacentNeighbors(toInsert));
      }
      var (firstIdx, lastIdx) := found.value;
      var first, last := ranges[firstIdx], ranges[lastIdx];
      AffectedNeighbours(ranges, toInsert, firstIdx, lastIdx);
      AffectedOverlap(ranges, toInsert, firstIdx, lastIdx);
      OverlapCovers(ranges, toInsert, firstIdx, lastIdx);
      var count := lastIdx - firstIdx + 1;
      if count == 1 {
        if first.IsOverlapping(toInsert) {
          res := Err(BlockRangeOverlap(toInsert, CalcOverlap(toInsert, first, last)));
        } else if first.IsLeftOf(toInsert) {
          res := Ok((true, false));
        } else {
          res := Ok((false, true));
        }
      } else if count == 2 && first.IsAdjacent(toInsert) && last.IsAdjacent(toInsert) {
        res := Ok((true, true));
      } else {
        res := Err(BlockRangeOverlap(toInsert, CalcOverlap(toInsert, first, last)));
      }
    }

    /** `+=` and `|=`. */
    method AddAssign(rhs: BlockRanges)
      requires Sorted(ranges) && Sorted(rhs.ranges)
      modifies this
      ensures Sorted(ranges) && (old(Canonical(ranges)) ==> Canonical(ranges))
      ensures Contents() == old(Contents()) + old(rhs.Contents())
    {
      hide Heights, BlockRange.Span;
      var other := rhs.ranges;
      HeightsEmpty();
      for i := 0 to |other|
        invariant Sorted(ranges) && (old(Canonical(ranges)) ==> Canonical(ranges))
        invariant Contents() == old(Contents()) + Heights(other[..i])
      {
        HeightsNext(other, i);
        UnionAssociative(old(Contents()), Heights(other[..i]), other[i].Span());
        var res := InsertRelaxed(other[i]);
        assert res.Ok?;
      }
      assert other[..|other|] == other;
    }

    /** `-=`. */
    method SubAssign(rhs: BlockRanges)
      requires Sorted(ranges) && Sorted(rhs.ranges)
      modifies this
      ensures Sorted(ranges) && (old(Canonical(ranges)) ==> Canonical(ranges))
      ensures Contents() == old(Contents()) - old(rhs.Contents())
    {
      hide Heights, BlockRange.Span;
      var other := rhs.ranges;
      HeightsEmpty();
      for i := 0 to |other|
        invariant Sorted(ranges) && (old(Canonical(ranges)) ==> Canonical(ranges))
        invariant Contents() == old(Contents()) - Heights(other[..i])
      {
        HeightsNext(other, i);
        DifferenceTwice(old(Contents()), Heights(other[..i]), other[i].Span());
        var res := RemoveRelaxed(other[i]);
        assert res.Ok?;
      }
      assert other[..|other|] == other;
    }

    /** `!`: everything from 1 to `u64::MAX` that is missing, in canonical form whatever the input. */
    method Not() returns (inverse: BlockRanges)
      requires Sorted(ranges)
      ensures fresh(inverse) && Canonical(inverse.ranges)
      ensures inverse.Contents() == AllHeights() - Contents()
    {
      inverse := new BlockRanges();
      HeightsEmpty();
      var res := inverse.InsertRelaxed(BlockRange(1, U64_MAX));
      assert res.Ok?;
      inverse.SubAssign(this);
    }

    /** `&=`, computed as `!(!A | !B)`. */
    method BitAndAssign(rhs: BlockRanges)
      requires Sorted(ranges) && Sorted(rhs.ranges)
      modifies this
      ensures Canonical(ranges)
      ensures Contents() == old(Contents()) * old(rhs.Contents())
    {
      AllMembers(ranges);
      AllMembers(rhs.ranges);
      var missing := Not();
      var rhsMissing := rhs.Not();
      missing.AddAssign(rhsMissing);
      var both := missing.Not();
      ranges := both.ranges;
    }

    /** The highest `limit` heights. */
    method HeadN(limit: u64) returns (truncated: BlockRanges)
      requires Sorted(ranges)
      ensures fresh(truncated) && Canonical(truncated.ranges)
      ensures IsTop(truncated.Contents(), Contents(), limit)
    {
      hide Heights, IsTop, BlockRange.Span, BlockRange.HeadN;
      truncated := new BlockRanges();
      HeightsEmpty();
      EmptyTop(limit);
      var len: u64 := 0;
      var i := |ranges|;
      assert ranges[i..] == [];
      while i > 0 && len != limit
        invariant 0 <= i <= |ranges| && fresh(truncated) && Canonical(truncated.ranges)
        invariant len == |truncated.Contents()| <= limit
        invariant IsTop(truncated.Contents(), Heights(ranges[i..]), limit)
      {
        i := i - 1;
        var r := ranges[i].HeadN(limit - len);
        TopGrows(ranges, i, truncated.Contents(), limit);
        var grown: u64 := len + r.Len();
        len := grown;
        var res := truncated.InsertRelaxed(r);
        assert res.Ok?;
      }
      TopOfSuffix(ranges, i, truncated.Contents(), limit);
    }

    /**
     * The lowest `limit` heights of all but `u64::MAX`, which saturation always loses. An error
     * stands for the panic of the source: it happens when `u64::MAX` alone is left to be taken.
     */
    method TailN(limit: u64) returns (res: Result<BlockRanges, BlockRangesError>)
      requires Sorted(ranges)
      ensures res.Err? <==> EndsWithMaxAlone(ranges) && |Contents() - {U64_MAX}| < limit
      ensures res.Ok? ==> fresh(res.value) && Canonical(res.value.ranges)
      ensures res.Ok? ==> IsBottom(res.value.Contents(), Contents() - {U64_MAX}, limit)
    {
      hide Heights, IsBottom, BlockRange.Span, BlockRange.TailN;
      var truncated := new BlockRanges();
      HeightsEmpty();
      EmptyBottom(limit);
      var len: u64 := 0;
      var i := 0;
      assert Heights([]) - {U64_MAX} == {} && ranges[..0] == [];
      while i < |ranges| && len != limit
        invariant 0 <= i <= |ranges| && fresh(truncated) && Canonical(truncated.ranges)
        invariant len == |truncated.Contents()| <= limit
        invariant IsBottom(truncated.Contents(), Heights(ranges[..i]) - {U64_MAX}, limit)
        invariant i == |ranges| ==> !EndsWithMaxAlone(ranges)
      {
        var r := ranges[i].TailN(limit - len);
        BottomGrows(ranges, i, truncated.Contents(), limit);
        if !r.Valid() { return Err(InvalidBlockRange(r)); }
        var grown: u64 := len + r.Len();
        len := grown;
        var inserted := truncated.InsertRelaxed(r);
        assert inserted.Ok?;
        i := i + 1;
      }
      BottomOfPrefix(ranges, i, truncated.Contents(), limit);
      res := Ok(truncated);
    }

    /** The first and the last height of every range. */
    method Edges() returns (edges: BlockRanges)
      requires Sorted(ranges)
      ensures fresh(edges) && Canonical(edges.ranges)
      ensures edges.Contents() <= Contents() && EdgesOf(Contents()) <= edges.Contents()
      ensures Canonical(ranges) ==> edges.Contents() == EdgesOf(Contents())
    {
      edges := new BlockRanges();
      HeightsEmpty();
      for i := 0 to |ranges|
        invariant fresh(edges) && Canonical(edges.ranges)
        invariant edges.Contents() == Ends(ranges[..i])
      {
        var start, end := ranges[i].start, ranges[i].end;
        EndsNext(ranges, i);
        var res := edges.InsertRelaxed(BlockRange(start, start));
        assert res.Ok?;
        res := edges.InsertRelaxed(BlockRange(end, end));
        assert res.Ok?;
      }
      assert ranges[..|ranges|] == ranges;
      EndsAreEdges(ranges);
    }

    /** The nearest member below `height`. */
    method LeftOf(height: u64) returns (left: Option<u64>)
      requires Sorted(ranges) && 0 < height
      ensures left.None? ==> forall h :: h in Contents() ==> height <= h
      ensures left.Some? ==> left.value in Contents() && left.value < height
      ensures left.Some? ==> forall h :: h in Contents() && h < height ==> h <= left.value
    {
      var i := |ranges|;
      while i > 0
        invariant 0 <= i <= |ranges|
        invariant forall j :: i <= j < |ranges| ==> height <= ranges[j].start
      {
        i := i - 1;
        if ranges[i].IsLeftOf(BlockRange(height, height)) {
          assert ranges[i].Contains(ranges[i].end);
          return Some(ranges[i].end);
        } else if ranges[i].Contains(height) && ranges[i].start != height {
          assert ranges[i].Contains(height - 1);
          return Some(height - 1);
        }
      }
      left := None;
    }

    /** The nearest member above `height`. */
    method RightOf(height: u64) returns (right: Option<u64>)
      requires Sorted(ranges) && 0 < height
      ensures right.None? ==> forall h :: h in Contents() ==> h <= height
      ensures right.Some? ==> right.value in Contents() && height < right.value
      ensures right.Some? ==> forall h :: h in Contents() && height < h ==> right.value <= h
    {
      for i := 0 to |ranges|
        invariant forall j :: 0 <= j < i ==> ranges[j].end <= height
      {
        if ranges[i].IsRightOf(BlockRange(height, height)) {
          assert ranges[i].Contains(ranges[i].start);
          return Some(ranges[i].start);
        } else if ranges[i].Contains(height) && ranges[i].end != height {
          assert ranges[i].Contains(height + 1);
          return Some(height + 1);
        }
      }
      right := None;
    }

    /** One round of the loop in `Partitions`: range `i` goes to the left, to the right, or is cut. */
    method PlaceInHalves(i: nat, left: BlockRanges, right: BlockRanges, leftLen: u64, middle: u64)
      returns (newLeftLen: u64)
      requires this != left && this != right && left != right
      requires Sorted(ranges) && i < |ranges| && middle == Size(ranges) / 2
      requires Canonical(left.ranges) && Canonical(right.ranges)
      requires Halves(left.Contents(), right.Contents(), Heights(ranges[..i]))
      requires leftLen == |left.Contents()| <= middle + 1
      requires leftLen < middle ==> right.Contents() == {}
      modifies left, right
      ensures Canonical(left.ranges) && Canonical(right.ranges)
      ensures Halves(left.Contents(), right.Contents(), Heights(ranges[..i + 1]))
      ensures newLeftLen == |left.Contents()| <= middle + 1
      ensures newLeftLen < middle ==> right.Contents() == {}
    {
      hide Heights, Halves, Below, BlockRange.Span;
      var range := ranges[i];
      Cut(ranges, i, left.Contents(), right.Contents(), middle);
      HalvesGrow(left.Contents(), right.Contents(), Heights(ranges[..i]), range.Span());
      newLeftLen := leftLen + range.Len();
      if newLeftLen <= middle {
        var res := left.InsertRelaxed(range);
        assert res.Ok?;
      } else if leftLen < middle {
        var sum: u64 := range.start + middle;
        newLeftLen := CutBetween(range, sum - leftLen, left, right, leftLen);
      } else {
        var res := right.InsertRelaxed(range);
        assert res.Ok?;
        newLeftLen := leftLen;
      }
    }

    /** The part of `range` up to `leftEnd` goes to `left`, the rest to the still empty `right`. */
    static method CutBetween(range: BlockRange, leftEnd: u64, left: BlockRanges, right: BlockRanges, leftLen: u64)
      returns (newLeftLen: u64)
      requires left != right && range.Valid() && range.Contains(leftEnd)
      requires Canonical(left.ranges) && Canonical(right.ranges) && right.Contents() == {}
      requires Below(left.Contents(), range.Span()) && leftLen == |left.Contents()|
      requires leftLen + (leftEnd - range.start + 1) <= U64_MAX
      modifies left, right
      ensures Canonical(left.ranges) && Canonical(right.ranges)
      ensures Halves(left.Contents(), right.Contents(), old(left.Contents()) + range.Span())
      ensures newLeftLen == |left.Contents()| == leftLen + (leftEnd - range.start + 1)
    {
      hide Heights, Halves, Below;
      var leftRange := BlockRange(range.start, leftEnd);
      CutRange(range, leftEnd, left.Contents());
      newLeftLen := leftLen + leftRange.Len();
      var res := left.InsertRelaxed(leftRange);
      assert res.Ok?;
      if leftEnd < range.end {
        res := right.InsertRelaxed(BlockRange(leftEnd + 1, range.end));
        assert res.Ok?;
      }
    }

    /** Cuts the set around a middle height, for binary search. The two sides differ by at most one. */
    method Partitions() returns (parts: Option<(BlockRanges, u64, BlockRanges)>)
      requires Sorted(ranges)
      ensures parts.None? <==> Contents() == {}
      ensures parts.Some? ==> Halved(parts.value, Contents()) && fresh(parts.value.0) && fresh(parts.value.2)
    {
      hide Heights, Below, Separates;
      var len := Len();
      if len == 0 { return None; }
      var left := new BlockRanges();
      var right := new BlockRanges();
      HeightsEmpty();
      var middle := len / 2;
      var leftLen: u64 := 0;
      SizeIsCardinality(ranges);
      EmptyHalves();
      for i := 0 to |ranges|
        invariant fresh(left) && fresh(right) && left != right
        invariant Canonical(left.ranges) && Canonical(right.ranges)
        invariant Halves(left.Contents(), right.Contents(), Heights(ranges[..i]))
        invariant leftLen == |left.Contents()| <= middle + 1
        invariant leftLen < middle ==> right.Contents() == {}
      {
        leftLen := PlaceInHalves(i, left, right, leftLen, middle);
      }
      assert ranges[..|ranges|] == ranges;
      parts := TakeOneOut(left, right, leftLen, Contents());
    }

    /** The last step of `Partitions`: the longer half gives up the height next to the other half. */
    static method TakeOneOut(left: BlockRanges, right: BlockRanges, leftLen: u64, ghost all: set<u64>)
      returns (parts: Option<(BlockRanges, u64, BlockRanges)>)
      requires left != right && Canonical(left.ranges) && Canonical(right.ranges)
      requires Halves(left.Contents(), right.Contents(), all) && leftLen == |left.Contents()|
      requires 0 < |all| && |all| / 2 <= leftLen <= |all| / 2 + 1
      modifies left, right
      ensures parts.Some? && parts.value.0 == left && parts.value.2 == right && Halved(parts.value, all)
    {
      hide Heights, Below, Separates, Separated, WithoutHead, WithoutTail;
      HeightsEmpty();
      CanonicalIsSorted(left.ranges);
      CanonicalIsSorted(right.ranges);
      var rightLen := right.Len();
      ghost var low, high := left.Contents(), right.Contents();
      var popped;
      if leftLen < rightLen {
        popped := right.PopTail();
      } else {
        popped := left.PopHead();
      }
      TakeMiddle(low, high, all, popped.value);
      parts := Some((left, popped.value, right));
    }
  }

  predicate OverlapsOrTouches(r: BlockRange, range: BlockRange)
    requires r.Valid() && range.Valid()
    ensures OverlapsOrTouches(r, range) <==> Affected(r, range)
  {
    assert r.start <= range.end && range.start <= r.end ==> Max(r.start, range.start) in r.Span() * range.Span();
    r.IsOverlapping(range) || r.IsAdjacent(range)
  }

  lemma UnaffectedHasNoNeighbours(rs: seq<BlockRange>, range: BlockRange)
    requires range.Valid()
    requires forall i :: 0 <= i < |rs| ==> !Affected(rs[i], range)
    ensures range.start - 1 !in Heights(rs) && range.end + 1 !in Heights(rs)
  {}

  /** A range above the head of the list shares nothing with it and has at most a left neighbour. */
  lemma AboveHead(rs: seq<BlockRange>, range: BlockRange)
    requires Sorted(rs) && rs != [] && range.Valid() && rs[|rs| - 1].IsLeftOf(range)
    ensures Heights(rs) !! range.Span()
    ensures range.start - 1 in Heights(rs) <==> rs[|rs| - 1].IsAdjacent(range)
    ensures range.end + 1 !in Heights(rs)
  {}

  /** What the affected ranges say about the neighbours of `range`. */
  lemma AffectedNeighbours(rs: seq<BlockRange>, range: BlockRange, s: nat, e: nat)
    requires Sorted(rs) && range.Valid() && AffectedSpan(rs, range, s, e)
    ensures range.start - 1 in Heights(rs) <==> rs[s].start < range.start
    ensures range.end + 1 in Heights(rs) <==> range.end < rs[e].end
  {}

  /** What the affected ranges say about the heights shared with `range`. */
  lemma AffectedOverlap(rs: seq<BlockRange>, range: BlockRange, s: nat, e: nat)
    requires Sorted(rs) && range.Valid() && AffectedSpan(rs, range, s, e)
    ensures Heights(rs) !! range.Span() <==>
            (forall i :: s <= i <= e ==> rs[i].IsAdjacent(range))
    ensures e - s + 1 > 2 ==> !(Heights(rs) !! range.Span())
  {
    assert Affected(rs[s], range) && Affected(rs[e], range);
    forall i: nat | i < |rs| { OutsideAffected(rs, range, s, e, i); }
    forall i | s <= i <= e && !rs[i].IsAdjacent(range)
      ensures !(Heights(rs) !! range.Span())
    {
      var h := Max(rs[i].start, range.start);
      assert Affected(rs[i], range);
      assert rs[i].Contains(h) && range.Contains(h);
      assert h in Heights(rs) * range.Span();
    }
    if e - s + 1 > 2 {
      assert !rs[s + 1].IsAdjacent(range);
    }
  }

  /** The reported overlap lies in `range` and covers every shared height. */
  lemma OverlapCovers(rs: seq<BlockRange>, range: BlockRange, s: nat, e: nat)
    requires Sorted(rs) && range.Valid() && AffectedSpan(rs, range, s, e)
    ensures Heights(rs) * range.Span() <= CalcOverlap(range, rs[s], rs[e]).Span() <= range.Span()
  {}

  lemma HeightsNext(rs: seq<BlockRange>, i: nat)
    requires i < |rs|
    ensures Heights(rs[..i + 1]) == Heights(rs[..i]) + rs[i].Span()
  {}

  lemma HeightsPrevious(rs: seq<BlockRange>, i: nat)
    requires Sorted(rs) && i < |rs|
    ensures Heights(rs[i..]) == Heights(rs[i + 1..]) + rs[i].Span()
    ensures Below(rs[i].Span(), Heights(rs[i + 1..]))
  {}

  lemma SingleSpan(h: u64)
    ensures BlockRange(h, h).Span() == {h}
  {}

  lemma ZeroIsNoMember(rs: seq<BlockRange>)
    requires Sorted(rs)
    ensures 0 !in Heights(rs)
  {}

  lemma AllMembers(rs: seq<BlockRange>)
    requires Sorted(rs)
    ensures Heights(rs) <= AllHeights()
  {}

  lemma SubsetSize(a: set<u64>, b: set<u64>)
    requires a <= b
    ensures |a| <= |b| && (|a| == |b| ==> a == b)
  {
    assert b == a + (b - a);
  }

  lemma UnionAssociative(a: set<u64>, b: set<u64>, c: set<u64>)
    ensures (a + b) + c == a + (b + c)
  {}

  lemma DifferenceTwice(a: set<u64>, b: set<u64>, c: set<u64>)
    ensures (a - b) - c == a - (b + c)
  {}

  lemma EmptyTop(limit: u64)
    ensures IsTop({}, {}, limit)
  {}

  /** While the limit is not reached, everything above was kept; the next range adds its own top. */
  lemma TopGrows(rs: seq<BlockRange>, i: nat, top: set<u64>, limit: u64)
    requires Sorted(rs) && i < |rs| && IsTop(top, Heights(rs[i + 1..]), limit) && |top| < limit
    ensures var r := rs[i].HeadN(limit - |top|);
            && r.Valid()
            && |top| + |r.Span()| <= limit
            && |top + r.Span()| == |top| + |r.Span()|
            && IsTop(top + r.Span(), Heights(rs[i..]), limit)
  {
    hide Heights;
    var r := rs[i].HeadN(limit - |top|);
    SubsetSize(top, Heights(rs[i + 1..]));
    HeightsPrevious(rs, i);
    RangeTop(rs[i], limit - |top|);
    TopUnion(top, r.Span(), rs[i].Span(), limit);
  }

  lemma RangeTop(range: BlockRange, limit: u64)
    requires range.Valid() && 0 < limit
    ensures var r := range.HeadN(limit); r.Valid() && IsTop(r.Span(), range.Span(), limit)
  {
    forall h: u64 { HeadNKeepsHighest(range, limit, h); }
    range.HeadN(limit).SpanSize();
    range.SpanSize();
  }

  /** All of `above` and the top of what lies below it. */
  lemma TopUnion(above: set<u64>, top: set<u64>, below: set<u64>, limit: u64)
    requires |above| < limit && IsTop(top, below, limit - |above|) && Below(below, above)
    ensures |above + top| == |above| + |top| <= limit
    ensures IsTop(above + top, above + below, limit)
  {
    assert above !! below;
    assert |above + below| == |above| + |below|;
    assert (above + below) - (above + top) == below - top;
  }

  /** A top that fills the limit is also the top of a longer list. */
  lemma TopOfSuffix(rs: seq<BlockRange>, i: nat, top: set<u64>, limit: u64)
    requires Sorted(rs) && i <= |rs| && IsTop(top, Heights(rs[i..]), limit)
    requires i == 0 || |top| == limit
    ensures IsTop(top, Heights(rs), limit)
  {
    assert rs == rs[..i] + rs[i..];
    if i > 0 {
      HeightsConcat(rs[..i], rs[i..]);
      PrefixIsBelow(rs, i);
      TopOfMore(top, Heights(rs[i..]), Heights(rs[..i]), limit);
    }
  }

  lemma PrefixIsBelow(rs: seq<BlockRange>, i: nat)
    requires Sorted(rs) && i <= |rs|
    ensures Below(Heights(rs[..i]), Heights(rs[i..]))
  {}

  lemma TopOfMore(top: set<u64>, all: set<u64>, below: set<u64>, limit: u64)
    requires IsTop(top, all, limit) && |top| == limit && Below(below, all)
    ensures IsTop(top, below + all, limit)
  {
    SubsetSize(all, below + all);
    forall a, b | a in (below + all) - top && b in top
      ensures a < b
    {
      assert a in below || a in all - top;
    }
  }

  lemma EmptyBottom(limit: u64)
    ensures IsBottom({}, {}, limit)
  {}

  /** While the limit is not reached, everything below was kept; the next range adds its own bottom. */
  lemma BottomGrows(rs: seq<BlockRange>, i: nat, low: set<u64>, limit: u64)
    requires Sorted(rs) && i < |rs| && IsBottom(low, Heights(rs[..i]) - {U64_MAX}, limit) && |low| < limit
    ensures var r := rs[i].TailN(limit - |low|);
            && (i + 1 == |rs| && EndsWithMaxAlone(rs) <==> !r.Valid())
            && (!r.Valid() ==> |Heights(rs) - {U64_MAX}| < limit)
            && (r.Valid() ==>
                  && |low| + |r.Span()| <= limit
                  && |low + r.Span()| == |low| + |r.Span()|
                  && IsBottom(low + r.Span(), Heights(rs[..i + 1]) - {U64_MAX}, limit))
  {
    hide Heights, BlockRange.Span, IsBottom, BlockRange.TailN, Below;
    var m, r := {U64_MAX}, rs[i].TailN(limit - |low|);
    RangeBottom(rs[i], limit - |low|);
    BottomIsAll(low, Heights(rs[..i]) - m, limit);
    NextIsAbove(rs, i);
    HeightsNext(rs, i);
    MinusUnion(Heights(rs[..i]), rs[i].Span(), m);
    if r.Valid() {
      BottomUnion(low, r.Span(), rs[i].Span() - m, limit);
    } else {
      SingleSpan(U64_MAX);
      assert rs[i].Span() - m == {};
      assert rs[..i + 1] == rs;
    }
  }

  lemma BottomIsAll(low: set<u64>, all: set<u64>, limit: u64)
    requires IsBottom(low, all, limit) && |low| < limit
    ensures low == all
  {
    SubsetSize(low, all);
  }

  lemma MinusUnion(a: set<u64>, b: set<u64>, m: set<u64>)
    ensures (a + b) - m == (a - m) + (b - m)
  {}

  lemma NextIsAbove(rs: seq<BlockRange>, i: nat)
    requires Sorted(rs) && i < |rs|
    ensures Below(Heights(rs[..i]) - {U64_MAX}, rs[i].Span() - {U64_MAX})
    ensures i + 1 < |rs| ==> rs[i].end < U64_MAX
  {
    if i + 1 < |rs| { assert rs[i].end < rs[i + 1].start; }
  }

  lemma RangeBottom(range: BlockRange, limit: u64)
    requires range.Valid() && 0 < limit
    ensures var r := range.TailN(limit);
            && (r.Valid() <==> range.start < U64_MAX)
            && (r.Valid() ==> IsBottom(r.Span(), range.Span() - {U64_MAX}, limit))
  {
    if range.start < U64_MAX {
      var rest := BlockRange(range.start, Min(range.end, U64_MAX - 1));
      assert rest.Span() == range.Span() - {U64_MAX};
      range.TailN(limit).SpanSize();
      rest.SpanSize();
    }
  }

  /** All of `below` and the bottom of what lies above it. */
  lemma BottomUnion(below: set<u64>, low: set<u64>, above: set<u64>, limit: u64)
    requires |below| < limit && IsBottom(low, above, limit - |below|) && Below(below, above)
    ensures |below + low| == |below| + |low| <= limit
    ensures IsBottom(below + low, below + above, limit)
  {
    assert below !! above;
    assert |below + above| == |below| + |above|;
    assert (below + above) - (below + low) == above - low;
  }

  /** A bottom that fills the limit is also the bottom of a longer list. */
  lemma BottomOfPrefix(rs: seq<BlockRange>, i: nat, low: set<u64>, limit: u64)
    requires Sorted(rs) && i <= |rs| && IsBottom(low, Heights(rs[..i]) - {U64_MAX}, limit)
    requires i == |rs| || |low| == limit
    ensures IsBottom(low, Heights(rs) - {U64_MAX}, limit)
    ensures |low| == limit ==> |Heights(rs) - {U64_MAX}| >= limit
  {
    hide Heights, IsBottom;
    var m := {U64_MAX};
    assert rs == rs[..i] + rs[i..];
    HeightsConcat(rs[..i], rs[i..]);
    MinusUnion(Heights(rs[..i]), Heights(rs[i..]), m);
    PrefixIsBelow(rs, i);
    if |low| == limit {
      BottomOfMore(low, Heights(rs[..i]) - m, Heights(rs[i..]) - m, limit);
    } else {
      assert rs[..i] == rs;
    }
  }

  lemma BottomOfMore(low: set<u64>, all: set<u64>, above: set<u64>, limit: u64)
    requires IsBottom(low, all, limit) && |low| == limit && Below(all, above)
    ensures IsBottom(low, all + above, limit) && |all + above| >= limit
  {
    SubsetSize(all, all + above);
    forall a, b | a in (all + above) - low && b in low
      ensures b < a
    {
      assert a in above || a in all - low;
    }
  }

  /** The first and the last heights of the ranges. */
  ghost function Ends(rs: seq<BlockRange>): set<u64> {
    (set i | 0 <= i < |rs| :: rs[i].start) + (set i | 0 <= i < |rs| :: rs[i].end)
  }

  lemma EndsNext(rs: seq<BlockRange>, i: nat)
    requires Sorted(rs) && i < |rs|
    ensures Ends(rs[..i + 1]) ==
            Ends(rs[..i]) + BlockRange(rs[i].start, rs[i].start).Span() + BlockRange(rs[i].end, rs[i].end).Span()
  {
    var a, b := rs[..i], rs[..i + 1];
    assert b[i] == rs[i] && forall j :: 0 <= j < i ==> b[j] == a[j];
    assert (set j | 0 <= j < |b| :: b[j].start) == (set j | 0 <= j < |a| :: a[j].start) + {rs[i].start};
    assert (set j | 0 <= j < |b| :: b[j].end) == (set j | 0 <= j < |a| :: a[j].end) + {rs[i].end};
    assert BlockRange(rs[i].start, rs[i].start).Span() == {rs[i].start};
    assert BlockRange(rs[i].end, rs[i].end).Span() == {rs[i].end};
  }

  lemma EndsAreEdges(rs: seq<BlockRange>)
    requires Sorted(rs)
    ensures Ends(rs) <= Heights(rs) && EdgesOf(Heights(rs)) <= Ends(rs)
    ensures Canonical(rs) ==> Ends(rs) == EdgesOf(Heights(rs))
  {}

  /** `left` and `right` are the lower and the upper part of `all`. */
  ghost predicate Halves(left: set<u64>, right: set<u64>, all: set<u64>) {
    && all == left + right
    && |all| == |left| + |right|
    && Below(left, right)
  }

  /** A middle height and what lies on either side of it, the sides differing by at most one. */
  ghost predicate Halved(parts: (BlockRanges, u64, BlockRanges), all: set<u64>)
    reads parts.0, parts.2
  {
    && Canonical(parts.0.ranges) && Canonical(parts.2.ranges)
    && Separates(parts.0.Contents(), parts.1, parts.2.Contents(), all)
    && -1 <= |parts.0.Contents()| - |parts.2.Contents()| <= 1
  }

  lemma EmptyHalves()
    ensures Halves({}, {}, {})
  {}

  /** The next range lies above everything seen, and cutting it at the middle cannot overflow. */
  lemma Cut(rs: seq<BlockRange>, i: nat, left: set<u64>, right: set<u64>, middle: u64)
    requires Sorted(rs) && i < |rs| && Halves(left, right, Heights(rs[..i]))
    requires middle == Size(rs) / 2
    ensures Below(Heights(rs[..i]), rs[i].Span()) && Below(left, rs[i].Span())
    ensures Heights(rs[..i + 1]) == Heights(rs[..i]) + rs[i].Span()
    ensures |left| + |rs[i].Span()| <= U64_MAX
    ensures |left| < middle < |left| + |rs[i].Span()| && right == {} ==>
              rs[i].start + middle <= U64_MAX && rs[i].start + middle - |left| <= rs[i].end
  {
    HeightsNext(rs, i);
    rs[i].SpanSize();
    PrefixSize(rs, i);
    SpanIsAbove(rs, i);
  }

  lemma SpanIsAbove(rs: seq<BlockRange>, i: nat)
    requires Sorted(rs) && i < |rs|
    ensures Below(Heights(rs[..i]), rs[i].Span())
  {}

  lemma BelowDisjoint(a: set<u64>, b: set<u64>)
    requires Below(a, b)
    ensures a !! b && |a + b| == |a| + |b|
  {}

  lemma HalvesGrow(left: set<u64>, right: set<u64>, all: set<u64>, span: set<u64>)
    requires Halves(left, right, all) && Below(all, span)
    ensures right == {} ==> Halves(left + span, {}, all + span)
    ensures Halves(left, right + span, all + span)
  {}

  /** Every height from index `i` on is at least that range's start. */
  lemma {:induction false} PrefixSize(rs: seq<BlockRange>, i: nat)
    requires Sorted(rs) && i < |rs|
    ensures Size(rs[..i]) == |Heights(rs[..i])| < rs[i].start
    ensures Size(rs) <= Size(rs[..i]) + (rs[|rs| - 1].end - rs[i].start + 1)
  {
    hide Heights;
    SizeIsCardinality(rs[..i]);
    var front := rs[..|rs| - 1];
    if i == |rs| - 1 {
      assert front == rs[..i];
    } else {
      PrefixSize(front, i);
      assert front[..i] == rs[..i];
    }
  }

  /** The part of `range` above `at`. */
  ghost function Upper(range: BlockRange, at: u64): set<u64>
    requires range.Contains(at)
  {
    if at < range.end then BlockRange(at + 1, range.end).Span() else {}
  }

  lemma SpanCut(range: BlockRange, at: u64)
    requires range.Contains(at)
    ensures var lower := BlockRange(range.start, at);
            && |lower.Span()| == at - range.start + 1
            && range.Span() == lower.Span() + Upper(range, at)
            && Below(lower.Span(), Upper(range, at))
  {
    BlockRange(range.start, at).SpanSize();
  }

  /** Cutting a range that lies above everything seen, when nothing was put on the right yet. */
  lemma CutRange(range: BlockRange, at: u64, left: set<u64>)
    requires range.Contains(at) && Below(left, range.Span())
    ensures var lower := BlockRange(range.start, at).Span();
            && |lower| == at - range.start + 1
            && |left + lower| == |left| + |lower|
            && Halves(left + lower, Upper(range, at), left + range.Span())
  {
    var lower, upper := BlockRange(range.start, at).Span(), Upper(range, at);
    SpanCut(range, at);
    assert Below(left, lower) && Below(left, upper);
    BelowDisjoint(left, lower);
    assert Below(left + lower, upper);
    BelowDisjoint(left + lower, upper);
    UnionAssociative(left, lower, upper);
  }

  /** Taking the higher end of the left part or the lower end of the right part out of two halves. */
  lemma TakeMiddle(left: set<u64>, right: set<u64>, all: set<u64>, middle: u64)
    requires Halves(left, right, all)
    ensures middle in left && Below(left - {middle}, {middle}) ==>
              Separates(left - {middle}, middle, right, all)
    ensures middle in right && Below({middle}, right - {middle}) ==>
              Separates(left, middle, right - {middle}, all)
  {}

  ghost predicate Separates(left: set<u64>, middle: u64, right: set<u64>, all: set<u64>) {
    && all == left + {middle} + right
    && |all| == |left| + 1 + |right|
    && Below(left, {middle}) && Below({middle}, right)
  }

  /** Complement is an involution on lists, not only on sets: `!!A` has the very ranges of `A`. */
  lemma ComplementTwice(a: seq<BlockRange>, once: seq<BlockRange>, twice: seq<BlockRange>)
    requires Canonical(a) && Canonical(once) && Canonical(twice)
    requires Heights(once) == AllHeights() - Heights(a)
    requires Heights(twice) == AllHeights() - Heights(once)
    ensures twice == a
  {
    hide Heights, BlockRange.Span;
    CanonicalIsSorted(a);
    AllMembers(a);
    CanonicalUnique(twice, a);
  }

  /** Taking heights out and putting them back restores the very ranges. */
  lemma RemoveThenInsert(a: seq<BlockRange>, without: seq<BlockRange>, restored: seq<BlockRange>, taken: set<u64>)
    requires Canonical(a) && Canonical(without) && Canonical(restored)
    requires taken <= Heights(a)
    requires Heights(without) == Heights(a) - taken
    requires Heights(restored) == Heights(without) + taken
    ensures restored == a
  {
    hide Heights, BlockRange.Span;
    CanonicalUnique(restored, a);
  }

  /** `tailn` takes the lowest heights exactly when `u64::MAX` is not among the ones to take. */
  lemma TailNIsBottom(all: set<u64>, low: set<u64>, limit: u64)
    requires IsBottom(low, all - {U64_MAX}, limit)
    ensures IsBottom(low, all, limit) <==> U64_MAX !in all || limit < |all|
  {
    if U64_MAX in all {
      assert |all - {U64_MAX}| == |all| - 1;
      forall a, b | a in all - low && b in low
        ensures b < a
      {
        assert a == U64_MAX || a in (all - {U64_MAX}) - low;
      }
    } else {
      assert all - {U64_MAX} == all;
    }
  }

  /** The set with the single height `u64::MAX` has no lowest height for `tailn`: the source panics. */
  method TailNOfMaxFails() returns (res: Result<BlockRanges, BlockRangesError>)
    ensures res.Err?
  {
    var max := BlockRange(U64_MAX, U64_MAX);
    var ranges := new BlockRanges();
    ranges.ranges := [max];
    HeightsSingle(max);
    SingleSpan(U64_MAX);
    assert ranges.Contents() - {U64_MAX} == {};
    res := ranges.TailN(1);
  }
}
