/** Lists of ranges and the set of heights each one stands for. */
module RangeLists {
  import opened BlockRangeExt

  /** Valid ranges in order, with more than `gap` between the end of one and the start of any later one. */
  predicate Separated(rs: seq<BlockRange>, gap: nat) {
    && (forall i :: 0 <= i < |rs| ==> rs[i].Valid())
    && (forall i, j :: 0 <= i < j < |rs| ==> rs[i].end + gap < rs[j].start)
  }

  /** What `from_vec` accepts: no shared height, but neighbours may touch. */
  predicate Sorted(rs: seq<BlockRange>) { Separated(rs, 0) }

  /** Sorted, and neighbours leave at least one height between them. */
  predicate Canonical(rs: seq<BlockRange>) { Separated(rs, 1) }

  lemma CanonicalIsSorted(rs: seq<BlockRange>)
    requires Canonical(rs)
    ensures Sorted(rs)
  {}

  predicate Before(a: seq<BlockRange>, b: seq<BlockRange>, gap: nat) {
    forall i, j :: 0 <= i < |a| && 0 <= j < |b| ==> a[i].end + gap < b[j].start
  }

  predicate Has(rs: seq<BlockRange>, h: u64) {
    exists i :: 0 <= i < |rs| && rs[i].Contains(h)
  }

  ghost function Heights(rs: seq<BlockRange>): set<u64> {
    set h: u64 | Has(rs, h)
  }

  /** `range` overlaps or touches `r`. */
  predicate Affected(r: BlockRange, range: BlockRange) {
    r.start <= range.end + 1 && range.start <= r.end + 1
  }

  /** The indices from `s` to `e` are the ranges that `range` overlaps or touches. */
  predicate AffectedSpan(rs: seq<BlockRange>, range: BlockRange, s: nat, e: nat) {
    && s <= e < |rs|
    && forall i :: 0 <= i < |rs| ==> (Affected(rs[i], range) <==> s <= i <= e)
  }

  /** Replaces the ranges from index `s` to index `e`. */
  function Splice(rs: seq<BlockRange>, s: nat, e: nat, mid: seq<BlockRange>): seq<BlockRange>
    requires s <= e < |rs|
  {
    rs[..s] + mid + rs[e + 1..]
  }

  /** The ranges that `Splice` replaces. */
  function Middle(rs: seq<BlockRange>, s: nat, e: nat): seq<BlockRange>
    requires s <= e < |rs|
  {
    rs[s..e + 1]
  }

  lemma HeightsConcat(a: seq<BlockRange>, b: seq<BlockRange>)
    ensures Heights(a + b) == Heights(a) + Heights(b)
  {
    forall h: u64
      ensures Has(a + b, h) <==> Has(a, h) || Has(b, h)
    {
      if i :| 0 <= i < |a| && a[i].Contains(h) { assert (a + b)[i] == a[i]; }
      if i :| 0 <= i < |b| && b[i].Contains(h) { assert (a + b)[|a| + i] == b[i]; }
    }
  }

  lemma HeightsSingle(r: BlockRange)
    ensures Heights([r]) == r.Span()
  {
    forall h: u64
      ensures Has([r], h) <==> r.Contains(h)
    {
      if r.Contains(h) { assert [r][0].Contains(h); }
    }
  }

  lemma HeightsEmpty()
    ensures Heights([]) == {}
  {}

  /** Draining the affected ranges and then inserting at most two new ones is one splice. */
  lemma SpliceInSteps(rs: seq<BlockRange>, s: nat, e: nat, mid: seq<BlockRange>)
    requires s <= e < |rs| && |mid| <= 2
    ensures var rest := rs[..s] + rs[e + 1..];
            && (|mid| == 0 ==> rest == Splice(rs, s, e, mid))
            && (|mid| == 1 ==> rest[..s] + [mid[0]] + rest[s..] == Splice(rs, s, e, mid))
            && (|mid| == 2 ==> var right := rest[..s] + [mid[1]] + rest[s..];
                               right[..s] + [mid[0]] + right[s..] == Splice(rs, s, e, mid))
  {}

  lemma SeparatedConcat(a: seq<BlockRange>, b: seq<BlockRange>, gap: nat)
    requires Separated(a, gap) && Separated(b, gap) && Before(a, b, gap)
    ensures Separated(a + b, gap)
  {}

  lemma SpliceSeparated(rs: seq<BlockRange>, s: nat, e: nat, mid: seq<BlockRange>, gap: nat)
    requires s <= e < |rs| && Separated(rs, gap) && Separated(mid, gap)
    requires Before(rs[..s], mid, gap) && Before(mid, rs[e + 1..], gap)
    ensures Separated(Splice(rs, s, e, mid), gap)
  {}

  lemma SpliceHeights(rs: seq<BlockRange>, s: nat, e: nat, mid: seq<BlockRange>)
    requires s <= e < |rs|
    ensures Heights(Splice(rs, s, e, mid)) == Heights(rs[..s]) + Heights(mid) + Heights(rs[e + 1..])
    ensures Heights(rs) == Heights(rs[..s]) + Heights(Middle(rs, s, e)) + Heights(rs[e + 1..])
  {
    HeightsConcat(rs[..s] + mid, rs[e + 1..]);
    HeightsConcat(rs[..s], mid);
    assert rs == rs[..s] + Middle(rs, s, e) + rs[e + 1..];
    HeightsConcat(rs[..s] + Middle(rs, s, e), rs[e + 1..]);
    HeightsConcat(rs[..s], Middle(rs, s, e));
  }

  /** The affected ranges reach from their first start to their last end, with gaps only inside `range`. */
  lemma AffectedHeights(rs: seq<BlockRange>, range: BlockRange, s: nat, e: nat)
    requires Sorted(rs) && range.Valid() && AffectedSpan(rs, range, s, e)
    ensures forall h: u64 :: h in Heights(Middle(rs, s, e)) ==> rs[s].start <= h <= rs[e].end
    ensures forall h: u64 :: rs[s].start <= h <= rs[e].end && !range.Contains(h) ==> h in Heights(Middle(rs, s, e))
    ensures Heights(rs[..s]) !! range.Span() && Heights(rs[e + 1..]) !! range.Span()
  {}

  /** Ranges outside an affected span keep their distance. */
  lemma OutsideAffected(rs: seq<BlockRange>, range: BlockRange, s: nat, e: nat, i: nat)
    requires Sorted(rs) && range.Valid() && AffectedSpan(rs, range, s, e) && i < |rs|
    ensures i < s ==> rs[i].end + 1 < range.start
    ensures e < i ==> range.end + 1 < rs[i].start
  {
    assert Affected(rs[s], range) && Affected(rs[e], range);
    assert s <= i <= e <==> Affected(rs[i], range);
  }

  lemma MergeSeparated(rs: seq<BlockRange>, range: BlockRange, s: nat, e: nat, gap: nat)
    requires gap <= 1 && Separated(rs, gap) && Sorted(rs) && range.Valid() && AffectedSpan(rs, range, s, e)
    ensures var merged := BlockRange(Min(rs[s].start, range.start), Max(rs[e].end, range.end));
            Separated(Splice(rs, s, e, [merged]), gap)
  {
    forall i: nat | i < |rs| { OutsideAffected(rs, range, s, e, i); }
    SpliceSeparated(rs, s, e, [BlockRange(Min(rs[s].start, range.start), Max(rs[e].end, range.end))], gap);
  }

  /** Insertion next to or over existing ranges: they become one range. */
  lemma MergeIsUnion(rs: seq<BlockRange>, range: BlockRange, s: nat, e: nat)
    requires Sorted(rs) && range.Valid() && AffectedSpan(rs, range, s, e)
    ensures var merged := BlockRange(Min(rs[s].start, range.start), Max(rs[e].end, range.end));
            var out := Splice(rs, s, e, [merged]);
            && Sorted(out)
            && (Canonical(rs) ==> Canonical(out))
            && Heights(out) == Heights(rs) + range.Span()
  {
    hide Heights;
    var merged := BlockRange(Min(rs[s].start, range.start), Max(rs[e].end, range.end));
    MergeSeparated(rs, range, s, e, 0);
    if Canonical(rs) { MergeSeparated(rs, range, s, e, 1); }
    SpliceHeights(rs, s, e, [merged]);
    AffectedHeights(rs, range, s, e);
    HeightsSingle(merged);
    assert Affected(rs[s], range) && Affected(rs[e], range);
    assert merged.Span() == Heights(Middle(rs, s, e)) + range.Span();
  }

  lemma PlaceSeparated(rs: seq<BlockRange>, range: BlockRange, k: nat, gap: nat)
    requires gap <= 1 && Separated(rs, gap) && range.Valid() && k <= |rs|
    requires forall i :: 0 <= i < |rs| ==> !Affected(rs[i], range)
    requires forall i :: 0 <= i < k ==> rs[i].end < range.start
    requires forall i :: k <= i < |rs| ==> range.end < rs[i].start
    ensures Separated(rs[..k] + [range] + rs[k..], gap)
  {}

  /** Insertion away from every range: a new range at index `k`. */
  lemma PlaceIsUnion(rs: seq<BlockRange>, range: BlockRange, k: nat)
    requires Sorted(rs) && range.Valid() && k <= |rs|
    requires forall i :: 0 <= i < |rs| ==> !Affected(rs[i], range)
    requires forall i :: 0 <= i < k ==> rs[i].end < range.start
    requires forall i :: k <= i < |rs| ==> range.end < rs[i].start
    ensures var out := rs[..k] + [range] + rs[k..];
            && Sorted(out)
            && (Canonical(rs) ==> Canonical(out))
            && Heights(out) == Heights(rs) + range.Span()
  {
    hide Heights;
    PlaceSeparated(rs, range, k, 0);
    if Canonical(rs) { PlaceSeparated(rs, range, k, 1); }
    HeightsConcat(rs[..k], rs[k..]);
    assert rs == rs[..k] + rs[k..];
    HeightsConcat(rs[..k], [range]);
    HeightsConcat(rs[..k] + [range], rs[k..]);
    HeightsSingle(range);
  }

  /** What is left of the affected ranges after removing `range`. */
  function Remainder(first: BlockRange, last: BlockRange, range: BlockRange): seq<BlockRange>
    requires range.Valid()
  {
    (if first.start < range.start then [BlockRange(first.start, range.start - 1)] else []) +
    (if range.end < last.end then [BlockRange(range.end + 1, last.end)] else [])
  }

  lemma RemainderHeights(first: BlockRange, last: BlockRange, range: BlockRange)
    requires range.Valid()
    ensures forall h: u64 :: h in Heights(Remainder(first, last, range)) <==>
                             (first.start <= h < range.start || range.end < h <= last.end)
  {
    var left := if first.start < range.start then [BlockRange(first.start, range.start - 1)] else [];
    var right := if range.end < last.end then [BlockRange(range.end + 1, last.end)] else [];
    HeightsConcat(left, right);
    if left != [] { HeightsSingle(left[0]); }
    if right != [] { HeightsSingle(right[0]); }
  }

  lemma RemoveSeparated(rs: seq<BlockRange>, range: BlockRange, s: nat, e: nat, gap: nat)
    requires gap <= 1 && Separated(rs, gap) && Sorted(rs) && range.Valid() && AffectedSpan(rs, range, s, e)
    ensures Separated(Splice(rs, s, e, Remainder(rs[s], rs[e], range)), gap)
  {
    var mid := Remainder(rs[s], rs[e], range);
    forall i: nat | i < |rs| { OutsideAffected(rs, range, s, e, i); }
    assert Affected(rs[s], range) && Affected(rs[e], range);
    assert forall k :: 0 <= k < |mid| ==> rs[s].start <= mid[k].start && mid[k].end <= rs[e].end;
    SpliceSeparated(rs, s, e, mid, gap);
  }

  /** Removal keeps only the part of the affected ranges outside `range`. */
  lemma RemoveIsDifference(rs: seq<BlockRange>, range: BlockRange, s: nat, e: nat)
    requires Sorted(rs) && range.Valid() && AffectedSpan(rs, range, s, e)
    ensures var out := Splice(rs, s, e, Remainder(rs[s], rs[e], range));
            && Sorted(out)
            && (Canonical(rs) ==> Canonical(out))
            && Heights(out) == Heights(rs) - range.Span()
  {
    hide Heights;
    var mid := Remainder(rs[s], rs[e], range);
    RemoveSeparated(rs, range, s, e, 0);
    if Canonical(rs) { RemoveSeparated(rs, range, s, e, 1); }
    SpliceHeights(rs, s, e, mid);
    AffectedHeights(rs, range, s, e);
    RemainderHeights(rs[s], rs[e], range);
    assert Heights(mid) == Heights(Middle(rs, s, e)) - range.Span();
  }

  /** A range that touches nothing shares no height with the list. */
  lemma UnaffectedIsDisjoint(rs: seq<BlockRange>, range: BlockRange)
    requires range.Valid()
    requires forall i :: 0 <= i < |rs| ==> !Affected(rs[i], range)
    ensures Heights(rs) !! range.Span()
  {}

  /** Total number of heights, range by range from the front. */
  function Size(rs: seq<BlockRange>): (n: nat)
    requires Sorted(rs)
    ensures rs != [] ==> n <= rs[|rs| - 1].end
  {
    if rs == [] then 0 else Size(rs[..|rs| - 1]) + (rs[|rs| - 1].end - rs[|rs| - 1].start + 1)
  }

  lemma {:induction false} SizeIsCardinality(rs: seq<BlockRange>)
    requires Sorted(rs)
    ensures Size(rs) == |Heights(rs)|
  {
    hide Heights, BlockRange.Span;
    if rs == [] {
      HeightsEmpty();
    } else {
      var front, last := rs[..|rs| - 1], rs[|rs| - 1];
      SizeIsCardinality(front);
      assert rs == front + [last];
      HeightsConcat(front, [last]);
      HeightsSingle(last);
      last.SpanSize();
      LastIsAbove(rs);
    }
  }

  lemma LastIsAbove(rs: seq<BlockRange>)
    requires Sorted(rs) && rs != []
    ensures Heights(rs[..|rs| - 1]) !! rs[|rs| - 1].Span()
  {}

  /** The lowest and the highest height of a sorted list. */
  lemma Extremes(rs: seq<BlockRange>)
    requires Sorted(rs) && rs != []
    ensures rs[0].start in Heights(rs) && rs[|rs| - 1].end in Heights(rs)
    ensures forall h :: h in Heights(rs) ==> rs[0].start <= h <= rs[|rs| - 1].end
  {}

  /** No range of a canonical list can be extended by one height. */
  lemma CanonicalGap(rs: seq<BlockRange>, i: nat)
    requires Canonical(rs) && i < |rs|
    ensures !exists h :: h in Heights(rs) && h == rs[i].end + 1
    ensures !exists h :: h in Heights(rs) && h == rs[i].start - 1
  {}

  /** A set of heights has one canonical list: equality of lists is equality of sets. */
  lemma {:induction false} CanonicalUnique(a: seq<BlockRange>, b: seq<BlockRange>)
    requires Canonical(a) && Canonical(b) && Heights(a) == Heights(b)
    ensures a == b
  {
    hide Heights, Separated, BlockRange.Span;
    CanonicalIsSorted(a);
    CanonicalIsSorted(b);
    if a == [] || b == [] {
      HeightsEmpty();
      if a != [] { Extremes(a); }
      if b != [] { Extremes(b); }
    } else {
      Extremes(a);
      Extremes(b);
      SameFirstEnd(a, b);
      SameFirstEnd(b, a);
      DropFirst(a);
      DropFirst(b);
      CanonicalUnique(a[1..], b[1..]);
      assert a == [a[0]] + a[1..];
      assert b == [b[0]] + b[1..];
    }
  }

  lemma SameFirstEnd(a: seq<BlockRange>, b: seq<BlockRange>)
    requires Canonical(a) && Canonical(b) && Heights(a) == Heights(b)
    requires a != [] && b != [] && a[0].start == b[0].start
    ensures a[0].end <= b[0].end
  {
    if b[0].end < a[0].end {
      assert a[0].Contains(b[0].end + 1);
      assert b[0].end + 1 in Heights(a);
      CanonicalGap(b, 0);
    }
  }

  lemma DropFirst(rs: seq<BlockRange>)
    requires Sorted(rs) && rs != []
    ensures Sorted(rs[1..]) && (Canonical(rs) ==> Canonical(rs[1..]))
    ensures Heights(rs[1..]) == Heights(rs) - rs[0].Span()
  {}

  /** The list after its highest height was taken out. */
  function WithoutHead(rs: seq<BlockRange>): seq<BlockRange>
    requires Sorted(rs) && rs != []
  {
    var last := rs[|rs| - 1];
    if last.start == last.end then rs[..|rs| - 1]
    else rs[|rs| - 1 := BlockRange(last.start, last.end - 1)]
  }

  /** The list after its lowest height was taken out. */
  function WithoutTail(rs: seq<BlockRange>): seq<BlockRange>
    requires Sorted(rs) && rs != []
  {
    var first := rs[0];
    if first.start == first.end then rs[1..]
    else rs[0 := BlockRange(first.start + 1, first.end)]
  }

  lemma WithoutHeadHeights(rs: seq<BlockRange>)
    requires Sorted(rs) && rs != []
    ensures Sorted(WithoutHead(rs)) && (Canonical(rs) ==> Canonical(WithoutHead(rs)))
    ensures Heights(WithoutHead(rs)) == Heights(rs) - {rs[|rs| - 1].end}
  {
    hide Heights;
    var front, last := rs[..|rs| - 1], rs[|rs| - 1];
    assert rs == front + [last];
    HeightsConcat(front, [last]);
    HeightsSingle(last);
    LastIsAbove(rs);
    if last.start < last.end {
      var shorter := BlockRange(last.start, last.end - 1);
      assert WithoutHead(rs) == front + [shorter];
      HeightsConcat(front, [shorter]);
      HeightsSingle(shorter);
    }
  }

  lemma WithoutTailHeights(rs: seq<BlockRange>)
    requires Sorted(rs) && rs != []
    ensures Sorted(WithoutTail(rs)) && (Canonical(rs) ==> Canonical(WithoutTail(rs)))
    ensures Heights(WithoutTail(rs)) == Heights(rs) - {rs[0].start}
  {
    DropFirst(rs);
    assert rs == [rs[0]] + rs[1..];
    ShortenFirst(rs[0], rs[1..], 0);
    if Canonical(rs) { ShortenFirst(rs[0], rs[1..], 1); }
  }

  lemma ShortenFirst(first: BlockRange, back: seq<BlockRange>, gap: nat)
    requires Separated([first] + back, gap) && Separated(back, gap)
    requires Heights(back) == Heights([first] + back) - first.Span()
    ensures Separated([first] + back, 0) ==>
              var out := WithoutTail([first] + back);
              Separated(out, gap) && Heights(out) == Heights([first] + back) - {first.start}
  {
    hide Heights, BlockRange.Span;
    var rs := [first] + back;
    assert rs[0] == first && rs[1..] == back;
    HeightsConcat([first], back);
    HeightsSingle(first);
    SpanWithoutStart(first);
    if first.start < first.end {
      var shorter := BlockRange(first.start + 1, first.end);
      assert rs[0 := shorter] == [shorter] + back;
      assert forall j :: 0 <= j < |back| ==> rs[j + 1] == back[j];
      SeparatedConcat([shorter], back, gap);
      HeightsConcat([shorter], back);
      HeightsSingle(shorter);
    }
  }

  lemma SpanWithoutStart(r: BlockRange)
    requires r.Valid()
    ensures r.start in r.Span()
    ensures if r.start < r.end then BlockRange(r.start + 1, r.end).Span() == r.Span() - {r.start} else r.Span() == {r.start}
  {}

  /** What a mix of `next` (false) and `next_back` (true) calls yields and what it leaves. */
  datatype Drained = Drained(front: seq<u64>, back: seq<u64>, rest: seq<BlockRange>)

  ghost function Drain(rs: seq<BlockRange>, calls: seq<bool>): (d: Drained)
    requires Sorted(rs)
    ensures Sorted(d.rest)
  {
    if calls == [] then Drained([], [], rs)
    else
      var d := Drain(rs, calls[..|calls| - 1]);
      if d.rest == [] then d
      else if calls[|calls| - 1] then
        WithoutHeadHeights(d.rest);
        Drained(d.front, d.back + [d.rest[|d.rest| - 1].end], WithoutHead(d.rest))
      else
        WithoutTailHeights(d.rest);
        Drained(d.front + [d.rest[0].start], d.back, WithoutTail(d.rest))
  }

  ghost function Elements(s: seq<u64>): set<u64> { set h | h in s }

  predicate Ascending(s: seq<u64>) { forall i, j :: 0 <= i < j < |s| ==> s[i] < s[j] }

  predicate Descending(s: seq<u64>) { forall i, j :: 0 <= i < j < |s| ==> s[i] > s[j] }

  ghost predicate Below(a: set<u64>, b: set<u64>) { forall x, y :: x in a && y in b ==> x < y }

  /** The yielded heights are in order and, with the rest, are exactly `all`. */
  ghost predicate InOrder(all: set<u64>, front: seq<u64>, rest: set<u64>, back: seq<u64>) {
    && all == Elements(front) + rest + Elements(back)
    && |all| == |front| + |rest| + |back|
    && Ascending(front) && Descending(back)
    && Below(Elements(front), rest) && Below(rest, Elements(back)) && Below(Elements(front), Elements(back))
  }

  lemma AppendAbove(s: seq<u64>, h: u64)
    requires Ascending(s) && Below(Elements(s), {h})
    ensures Ascending(s + [h]) && Elements(s + [h]) == Elements(s) + {h}
  {
    assert forall i :: 0 <= i < |s| ==> s[i] in Elements(s) && h in {h};
  }

  lemma AppendBelow(s: seq<u64>, h: u64)
    requires Descending(s) && Below({h}, Elements(s))
    ensures Descending(s + [h]) && Elements(s + [h]) == Elements(s) + {h}
  {
    assert forall i :: 0 <= i < |s| ==> s[i] in Elements(s) && h in {h};
  }

  lemma ExtendBelow(a: set<u64>, h: u64, b: set<u64>)
    requires Below(a, b) && forall y :: y in b ==> h < y
    ensures Below(a + {h}, b)
  {}

  lemma ExtendAbove(a: set<u64>, h: u64, b: set<u64>)
    requires Below(a, b) && forall x :: x in a ==> x < h
    ensures Below(a, b + {h})
  {}

  lemma TakeLowest(all: set<u64>, front: seq<u64>, h: u64, rest: set<u64>, back: seq<u64>)
    requires InOrder(all, front, rest + {h}, back) && Below({h}, rest)
    ensures InOrder(all, front + [h], rest, back)
  {
    AppendAbove(front, h);
    ExtendBelow(Elements(front), h, rest);
    ExtendBelow(Elements(front), h, Elements(back));
  }

  lemma TakeHighest(all: set<u64>, front: seq<u64>, rest: set<u64>, h: u64, back: seq<u64>)
    requires InOrder(all, front, rest + {h}, back) && Below(rest, {h})
    ensures InOrder(all, front, rest, back + [h])
  {
    AppendBelow(back, h);
    ExtendAbove(rest, h, Elements(back));
    ExtendAbove(Elements(front), h, Elements(back));
  }

  lemma HeadIsHighest(rs: seq<BlockRange>)
    requires Sorted(rs) && rs != []
    ensures Heights(rs) == Heights(WithoutHead(rs)) + {rs[|rs| - 1].end}
    ensures Below(Heights(WithoutHead(rs)), {rs[|rs| - 1].end})
  {
    hide Heights, WithoutHead;
    WithoutHeadHeights(rs);
    Extremes(rs);
  }

  lemma TailIsLowest(rs: seq<BlockRange>)
    requires Sorted(rs) && rs != []
    ensures Heights(rs) == Heights(WithoutTail(rs)) + {rs[0].start}
    ensures Below({rs[0].start}, Heights(WithoutTail(rs)))
  {
    hide Heights, WithoutTail;
    WithoutTailHeights(rs);
    Extremes(rs);
  }

  /** However the calls are mixed, every height comes out exactly once and in order from both sides. */
  lemma {:induction false} DrainInOrder(rs: seq<BlockRange>, calls: seq<bool>)
    requires Sorted(rs)
    ensures var d := Drain(rs, calls);
            && InOrder(Heights(rs), d.front, Heights(d.rest), d.back)
            && (d.rest != [] ==> |d.front| + |d.back| == |calls|)
  {
    hide Heights, InOrder, WithoutHead, WithoutTail;
    if calls == [] {
      NothingYielded(Heights(rs));
    } else {
      var earlier := calls[..|calls| - 1];
      DrainInOrder(rs, earlier);
      var d := Drain(rs, earlier);
      if d.rest != [] {
        if calls[|calls| - 1] {
          HeadIsHighest(d.rest);
          TakeHighest(Heights(rs), d.front, Heights(WithoutHead(d.rest)), d.rest[|d.rest| - 1].end, d.back);
        } else {
          TailIsLowest(d.rest);
          TakeLowest(Heights(rs), d.front, d.rest[0].start, Heights(WithoutTail(d.rest)), d.back);
        }
      }
    }
  }

  lemma NothingYielded(all: set<u64>)
    ensures InOrder(all, [], all, [])
  {
    assert Elements([]) == {};
  }
}
