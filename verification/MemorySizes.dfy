/**
 What the two sizes that a memory keeps count, on the addresses stored.
 */
module MemorySizes {
  import opened MemoryMap
  import opened HexFormat

  function Span(start: int, n: nat): set<int>
  {
    if n == 0 then {} else Span(start, n - 1) + {start + n - 1}
  }

  lemma {:induction false} SpanHolds(start: int, n: nat, a: int)
    ensures a in Span(start, n) <==> start <= a < start + n
  {
    if n > 0 {
      SpanHolds(start, n - 1, a);
    }
  }

  lemma {:induction false} SpanSize(start: int, n: nat)
    ensures |Span(start, n)| == n
  {
    if n > 0 {
      SpanSize(start, n - 1);
      SpanHolds(start, n - 1, start + n - 1);
    }
  }

  lemma {:induction false} RangeSize(r: Range)
    ensures |RangeMap(r).Keys| == |r.bytes|
  {
    var span := Span(r.start, |r.bytes|);
    SpanSize(r.start, |r.bytes|);
    forall a ensures a in span <==> a in RangeMap(r).Keys {
      SpanHolds(r.start, |r.bytes|, a);
    }
    assert span == RangeMap(r).Keys;
  }

  /** The number of bytes is the number of addresses stored. */
  lemma {:induction false} CountIsAddresses(rs: seq<Range>)
    requires Canonical(rs)
    ensures ByteCount(rs) == |ToMap(rs).Keys|
  {
    if rs != [] {
      var init, r := rs[..|rs| - 1], rs[|rs| - 1];
      CountIsAddresses(init);
      RangeSize(r);
      MapBelow(init, r.start);
      assert ToMap(init).Keys !! RangeMap(r).Keys;
      assert ToMap(rs).Keys == ToMap(init).Keys + RangeMap(r).Keys;
    }
  }

  /** The free stretch between a range and the one before. */
  function GapBefore(rs: seq<Range>, i: nat): int
    requires 0 < i < |rs|
  {
    rs[i].start - rs[i - 1].End()
  }

  lemma {:induction false} GapsBounded(rs: seq<Range>, i: nat)
    requires 0 < i < |rs|
    ensures GapBefore(rs, i) <= LargestGap(rs)
  {
    var n := |rs| - 1;
    if i < n {
      GapsBounded(rs[..n], i);
    }
  }

  lemma {:induction false} GapReached(rs: seq<Range>) returns (i: nat)
    requires Canonical(rs) && |rs| > 1
    ensures 0 < i < |rs| && GapBefore(rs, i) == LargestGap(rs)
  {
    var n := |rs| - 1;
    i := n;
    if n == 1 {
      assert LargestGap(rs[..1]) == 0;
    } else if GapBefore(rs, n) != LargestGap(rs) {
      i := GapReached(rs[..n]);
    }
  }

  /** The largest gap is the longest free stretch between two ranges; without two ranges it is 0. */
  lemma {:induction false} GapIsLargest(rs: seq<Range>)
    requires Canonical(rs)
    ensures forall i | 0 < i < |rs| :: GapBefore(rs, i) <= LargestGap(rs)
    ensures if |rs| <= 1 then LargestGap(rs) == 0
            else exists i | 0 < i < |rs| :: GapBefore(rs, i) == LargestGap(rs)
  {
    forall i | 0 < i < |rs| ensures GapBefore(rs, i) <= LargestGap(rs) {
      GapsBounded(rs, i);
    }
    if |rs| > 1 {
      var i := GapReached(rs);
    }
  }
}
