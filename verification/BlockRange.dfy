/** A single inclusive range of header heights, `RangeInclusive<u64>` in the node. */
module BlockRangeExt {

  const U64_MAX: int := 0xFFFF_FFFF_FFFF_FFFF

  /** Machine integers. Storing a value in a `u64` is where Dafny checks that nothing overflowed. */
  type u64 = x: int | 0 <= x <= U64_MAX

  datatype Option<+T> = None | Some(value: T)

  datatype Result<+T, +E> = Ok(value: T) | Err(error: E)

  function SaturatingSub(a: u64, b: u64): u64 { if a < b then 0 else a - b }

  function SaturatingAdd(a: u64, b: u64): u64 { if a + b > U64_MAX then U64_MAX else a + b }

  function Min(a: u64, b: u64): u64 { if a <= b then a else b }

  function Max(a: u64, b: u64): u64 { if a <= b then b else a }

  datatype BlockRange = BlockRange(start: u64, end: u64) {

    predicate Valid() { 0 < start <= end }

    predicate IsEmpty() { start > end }

    predicate Contains(h: u64) { start <= h <= end }

    /** The heights the range stands for. */
    ghost function Span(): set<u64> { set h: u64 | Contains(h) }

    /** `0..=u64::MAX` is the one range whose length does not fit. */
    function Len(): (n: u64)
      requires 0 < start || end < U64_MAX
      ensures n == |Span()|
    {
      SpanSize();
      if end < start then 0 else end - start + 1
    }

    lemma {:induction false} SpanSize()
      ensures |Span()| == if end < start then 0 else end - start + 1
      decreases if end < start then 0 else end - start + 1
    {
      if end < start {
        assert Span() == {};
      } else if start == end {
        assert Span() == {start};
      } else {
        var shorter := BlockRange(start, end - 1);
        shorter.SpanSize();
        assert Span() == shorter.Span() + {end};
      }
    }

    /** The two ranges are disjoint and leave no height between them. */
    predicate IsAdjacent(other: BlockRange)
      requires Valid() && other.Valid()
      ensures IsAdjacent(other) <==> end + 1 == other.start || other.end + 1 == start
    {
      end == SaturatingSub(other.start, 1) || SaturatingSub(start, 1) == other.end
    }

    /** The source tells four placements apart; together they say that a height is shared. */
    predicate IsOverlapping(other: BlockRange)
      requires Valid() && other.Valid()
      ensures IsOverlapping(other) <==> !(Span() !! other.Span())
    {
      assert start <= other.end && other.start <= end ==> Max(start, other.start) in Span() * other.Span();
      || (start < other.start && other.Contains(end))
      || (end > other.end && other.Contains(start))
      || (start >= other.start && end <= other.end)
      || (start <= other.start && end >= other.end)
    }

    predicate IsLeftOf(other: BlockRange)
      requires Valid() && other.Valid()
    {
      end < other.start
    }

    predicate IsRightOf(other: BlockRange)
      requires Valid() && other.Valid()
    {
      other.end < start
    }

    /** Truncates to at most `limit` heights, keeping the highest. */
    function HeadN(limit: u64): BlockRange {
      if IsEmpty() then
        BlockRange(1, 0)
      else
        var cut := SaturatingSub(end, limit);
        if cut == U64_MAX then BlockRange(1, 0) else BlockRange(Max(start, cut + 1), end)
    }

    /** Truncates to at most `limit` heights, keeping the lowest. */
    function TailN(limit: u64): BlockRange {
      if IsEmpty() then
        BlockRange(1, 0)
      else
        var sum := SaturatingAdd(start, limit);
        if sum == 0 then BlockRange(1, 0) else BlockRange(start, Min(end, sum - 1))
    }
  }

  /** `headn` keeps the heights with fewer than `limit` heights above them. Height 0 is never kept. */
  lemma HeadNKeepsHighest(r: BlockRange, limit: u64, h: u64)
    ensures r.HeadN(limit).Contains(h) <==> r.Contains(h) && 0 < h && r.end - h < limit
  {}

  /**
   * `tailn` keeps the heights with fewer than `limit` heights below them, except that its
   * saturating addition always loses height `u64::MAX`.
   */
  lemma TailNKeepsLowest(r: BlockRange, limit: u64, h: u64)
    ensures r.TailN(limit).Contains(h) <==> r.Contains(h) && h - r.start < limit && h < U64_MAX
  {}

  /**
   * `tailn` keeps the lowest `min(limit, len)` heights exactly when the limit stops it
   * before `u64::MAX`.
   */
  lemma TailNIsExact(r: BlockRange, limit: u64)
    ensures (forall h: u64 :: r.TailN(limit).Contains(h) <==> r.Contains(h) && h - r.start < limit)
       <==> !(r.Contains(U64_MAX) && r.start + limit > U64_MAX)
  {}

  /** `u64::MAX` is lost although the limit leaves room for it. */
  lemma TailNLosesMax()
    ensures BlockRange(U64_MAX, U64_MAX).TailN(1) == BlockRange(U64_MAX, U64_MAX - 1)
    ensures BlockRange(U64_MAX - 1, U64_MAX).TailN(2) == BlockRange(U64_MAX - 1, U64_MAX - 1)
  {}
}
