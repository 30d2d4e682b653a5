/**
 Sparse memory (tools/hextool.py): the two Python classes, updated in place, proved against
 the map from addresses to bytes of module `MemoryMap`.
 */
module SparseMemory {
  import opened Wrappers
  import opened Bytes
  import opened MemoryMap

  /**
   MemoryRange: contiguous data whose buffer may be longer than the data (room kept for
   growth).
   */
  class MemoryRange {
    var buffer: seq<u8>
    var start: nat
    var numBytes: nat
    var end: nat

    ghost predicate Valid()
      reads this
    {
      numBytes <= |buffer| && end == start + numBytes
    }

    function View(): Range
      reads this
    {
      Range(start, buffer[..Min(numBytes, |buffer|)])
    }

    constructor (start: nat, bytes: seq<u8>)
      ensures Valid() && View() == Range(start, bytes)
    {
      buffer := bytes;
      this.start := start;
      numBytes := |bytes|;
      end := start + |bytes|;
    }

    /** Data is added at the end; `prealloc` is the size computed for a new buffer, whatever it is. */
    method Extend(bytes: seq<u8>, prealloc: nat)
      requires Valid()
      modifies this
      ensures Valid() && View() == Range(old(start), old(View()).bytes + bytes)
    {
      if |buffer| < numBytes + |bytes| {
        var b: seq<u8> := seq(prealloc, _ => 0);
        b := buffer + b[Min(numBytes, prealloc)..];
        buffer := b;
      }
      buffer := buffer[..numBytes] + bytes + buffer[Min(numBytes + |bytes|, |buffer|)..];
      end := end + |bytes|;
      numBytes := numBytes + |bytes|;
    }

    /** `bytes[lo:hi] = data` on the view of the data, which keeps its length. */
    method Replace(lo: nat, hi: nat, data: seq<u8>)
      requires Valid() && lo <= hi <= numBytes && |data| == hi - lo
      modifies this`buffer
      ensures Valid()
      ensures View() == Range(start, old(View()).bytes[..lo] + data + old(View()).bytes[hi..])
    {
      buffer := buffer[..lo] + data + buffer[hi..];
    }

    /** The slice is taken at the end address, not at the length; that is never too early. */
    method Trim()
      requires Valid()
      modifies this`buffer
      ensures Valid() && View() == old(View())
    {
      buffer := buffer[..Min(end, |buffer|)];
    }
  }

  /** The joined range is the range of the right extent with the right bytes. */
  lemma JoinedIs(w: Range, t: Range, q: Range)
    requires Touch(w, t)
    requires q.start == Min(w.start, t.start) && q.End() == if w.End() > t.End() then w.End() else t.End()
    requires forall k | 0 <= k < |q.bytes| :: q.bytes[k] == JoinedAtOffset(w, t, q.start, k)
    ensures Joined(w, t) == q
  {
    assert Joined(w, t).bytes == q.bytes;
  }

  lemma JoinedBeside(w: Range, t: Range)
    requires Touch(w, t)
    ensures w.End() == t.start ==> Joined(w, t) == Range(w.start, w.bytes + t.bytes)
    ensures w.start == t.End() ==> Joined(w, t) == Range(t.start, t.bytes + w.bytes)
  {
    if w.End() == t.start { JoinedIs(w, t, Range(w.start, w.bytes + t.bytes)); }
    if w.start == t.End() { JoinedIs(w, t, Range(t.start, t.bytes + w.bytes)); }
  }

  lemma JoinedOver(w: Range, t: Range)
    requires Touch(w, t) && w.start <= t.start
    ensures t.End() <= w.End() ==> Joined(w, t) == w
    ensures w.End() < t.End() ==> Joined(w, t) == Range(w.start, w.bytes + t.bytes[|t.bytes| - (t.End() - w.End())..])
  {
    if t.End() <= w.End() {
      JoinedIs(w, t, w);
    } else {
      JoinedIs(w, t, Range(w.start, w.bytes + t.bytes[|t.bytes| - (t.End() - w.End())..]));
    }
  }

  lemma JoinedInto(w: Range, t: Range)
    requires Touch(w, t) && t.start < w.start
    ensures t.End() <= w.End() ==> Joined(w, t) == Range(t.start, t.bytes[..w.start - t.start] + w.bytes)
    ensures w.End() < t.End() ==>
              Joined(w, t) == Range(t.start, t.bytes[..w.start - t.start] + w.bytes + t.bytes[w.End() - t.start..])
  {
    if t.End() <= w.End() {
      JoinedIs(w, t, Range(t.start, t.bytes[..w.start - t.start] + w.bytes));
    } else {
      JoinedIs(w, t, Range(t.start, t.bytes[..w.start - t.start] + w.bytes + t.bytes[w.End() - t.start..]));
    }
  }

  ghost function Views(rs: seq<MemoryRange>): (v: seq<Range>)
    reads rs
    ensures |v| == |rs|
  {
    seq(|rs|, i requires 0 <= i < |rs| reads rs => rs[i].View())
  }

  datatype WriteResult = Written | IndexError | SizeError | OverlapError

  class Memory {
    const topAddress: nat
    var gapFillByte: u8
    var ranges: seq<MemoryRange>
    var cursor: int
    var overlapOk: bool
    var maxGap: Option<nat>
    var numBytes: Option<nat>

    /** The list of ranges is in order and lies inside the address space. */
    ghost predicate Ordered()
      reads this, ranges
    {
      && (forall i | 0 <= i < |ranges| :: ranges[i].Valid())
      && Distinct(ranges)
      && Canonical(Views(ranges))
      && (forall i | 0 <= i < |ranges| :: ranges[i].end <= topAddress)
    }

    /** Moreover, a cached value is what recalculation would give. */
    ghost predicate Valid()
      reads this, ranges
    {
      && Ordered()
      && (maxGap.Some? ==> maxGap.value == LargestGap(Views(ranges)))
      && (numBytes.Some? ==> numBytes.value == ByteCount(Views(ranges)))
    }

    constructor (addressSpace: nat, overlapOk: bool, gapFillByte: u8)
      ensures Valid() && ranges == [] && cursor == 0
      ensures topAddress == addressSpace && this.overlapOk == overlapOk && this.gapFillByte == gapFillByte
    {
      topAddress := addressSpace;
      this.gapFillByte := gapFillByte;
      ranges := [];
      cursor := 0;
      this.overlapOk := overlapOk;
      maxGap, numBytes := None, None;
    }

    /** New data that starts at or before the range: it takes over what lies behind it. */
    method OverwriteOver(newMr: MemoryRange, thisMr: MemoryRange)
      requires newMr.Valid() && thisMr.Valid() && newMr != thisMr
      requires Meet(newMr.View(), thisMr.View()) && newMr.start <= thisMr.start
      modifies newMr
      ensures newMr.Valid() && newMr.View() == Joined(old(newMr.View()), thisMr.View())
    {
      ghost var w, t := newMr.View(), thisMr.View();
      var right := thisMr.end - newMr.end;
      JoinedOver(w, t);
      if right > 0 {
        var room: nat := *;
        var tail := thisMr.buffer[thisMr.numBytes - right..thisMr.numBytes];
        assert tail == t.bytes[|t.bytes| - right..];
        newMr.Extend(tail, room);
      }
    }

    /** New data that starts inside the range is copied into it, what exceeds it at the end. */
    method OverwriteInto(newMr: MemoryRange, thisMr: MemoryRange)
      requires newMr.Valid() && thisMr.Valid() && newMr != thisMr
      requires Meet(newMr.View(), thisMr.View()) && thisMr.start < newMr.start
      modifies thisMr
      ensures thisMr.Valid() && thisMr.View() == Joined(newMr.View(), old(thisMr.View()))
    {
      ghost var w, t := newMr.View(), thisMr.View();
      var left := newMr.start - thisMr.start;
      var right := thisMr.end - newMr.end;
      JoinedInto(w, t);
      var bytes := newMr.buffer[..newMr.numBytes];
      if right <= 0 {
        var n := thisMr.numBytes - left;
        var room: nat := *;
        thisMr.Replace(left, thisMr.numBytes, bytes[..n]);
        thisMr.Extend(bytes[n..], room);
        assert bytes[..n] + bytes[n..] == w.bytes;
      } else {
        thisMr.Replace(left, thisMr.numBytes - right, bytes);
      }
    }

    /** The ways in which new data can lie over a range it overlaps; one of the two objects ends up with both. */
    method Overwrite(newMr: MemoryRange, thisMr: MemoryRange) returns (mr: MemoryRange)
      requires newMr.Valid() && thisMr.Valid() && newMr != thisMr
      requires Meet(newMr.View(), thisMr.View())
      modifies newMr, thisMr
      ensures mr == newMr || mr == thisMr
      ensures mr.Valid() && mr.View() == Joined(old(newMr.View()), old(thisMr.View()))
    {
      if newMr.start <= thisMr.start {
        OverwriteOver(newMr, thisMr);
        mr := newMr;
      } else {
        OverwriteInto(newMr, thisMr);
        mr := thisMr;
      }
    }

    /**
     One range that new data touches becomes part of it. The objects in play are `a`, with the
     new data at position `c` and the range after it.
     */
    method Join(newMr: MemoryRange, thisMr: MemoryRange, ghost a: seq<MemoryRange>, ghost c: nat, ghost av: seq<Range>)
      returns (mr: MemoryRange)
      requires Owned(a, av) && c + 1 < |a| && a[c] == newMr && a[c + 1] == thisMr
      requires Touch(av[c], av[c + 1])
      modifies newMr, thisMr
      ensures mr == newMr || mr == thisMr
      ensures Owned(a[..c] + [mr] + a[c + 2..], av[..c] + [Joined(av[c], av[c + 1])] + av[c + 2..])
      ensures av[c].End() == av[c + 1].start ==> mr == newMr
      ensures av[c].End() != av[c + 1].start && av[c].start == av[c + 1].End() ==>
                mr == thisMr && unchanged(newMr)
    {
      ghost var w, t := av[c], av[c + 1];
      JoinedBeside(w, t);
      var room: nat := *;
      if newMr.end == thisMr.start {
        newMr.Extend(thisMr.buffer[..thisMr.numBytes], room);
        mr := newMr;
      } else if newMr.start == thisMr.end {
        thisMr.Extend(newMr.buffer[..newMr.numBytes], room);
        mr := thisMr;
      } else {
        mr := Overwrite(newMr, thisMr);
      }
      ghost var b, bv := a[..c] + [mr] + a[c + 2..], av[..c] + [Joined(w, t)] + av[c + 2..];
      DistinctSplice(a, c, mr);
      forall i | 0 <= i < |b|
        ensures b[i].Valid() && b[i].View() == bv[i]
      {
        assert i < c ==> b[i] == a[i] && bv[i] == av[i];
        assert i > c ==> b[i] == a[i + 1] && bv[i] == av[i + 1];
      }
    }

    /** Ranges `[..n]` have been dealt with: `newRanges` are final and `newMr` holds the new data. */
    ghost predicate Placing(newRanges: seq<MemoryRange>, newMr: MemoryRange, n: nat,
                            p: seq<Range>, m: Range, v: seq<Range>, w: Range)
      reads this, ranges, newRanges, newMr
    {
      && n <= |ranges| == |v| && Canonical(v) && Merging(p, m, v, n, w) && |newRanges| == |p|
      && Owned(newRanges + [newMr] + ranges[n..], p + [m] + v[n..])
      && m.End() <= topAddress && (forall i | 0 <= i < |p| :: p[i].End() <= topAddress)
      && (forall i | 0 <= i < |v| :: v[i].End() <= topAddress)
    }

    /** Without permission to overlap: nothing met so far, and what has grown in place. */
    ghost predicate Tracked(n: nat, m: Range, v: seq<Range>, w: Range)
      reads this, ranges
      requires n <= |ranges| == |v|
    {
      && (forall i | 0 <= i < n :: !Meet(v[i], w))
      && (m.End() > w.End() ==> n > 0 && m.End() == v[n - 1].End())
      && (m.End() == w.End() ==>
            forall k | 0 <= k < n :: ranges[k].Valid() && ranges[k].View() == LeftExtended(v, w.start, w.bytes)[k])
    }

    lemma PlacingStart(newMr: MemoryRange, v: seq<Range>, w: Range)
      requires Ordered() && v == Views(ranges) && w.bytes != [] && w.End() <= topAddress
      requires newMr.Valid() && newMr.View() == w && newMr !in ranges
      ensures Placing([], newMr, 0, [], w, v, w) && Tracked(0, w, v, w)
    {
      var a, av := [newMr] + ranges, [w] + v;
      assert [] + [newMr] + ranges[0..] == a && [] + [w] + v[0..] == av;
      assert v[..0] == [] && [] + [w] == [w];
    }

    lemma PlacingFacts(newRanges: seq<MemoryRange>, newMr: MemoryRange, n: nat,
                       p: seq<Range>, m: Range, v: seq<Range>, w: Range)
      requires Placing(newRanges, newMr, n, p, m, v, w)
      ensures newMr.Valid() && newMr.View() == m && newMr !in ranges[n..]
      ensures n < |ranges| ==> ranges[n].Valid() && ranges[n].View() == v[n]
      ensures forall k | n <= k < |ranges| :: ranges[k].Valid() && ranges[k].View() == v[k]
    {
      var a, av, c := newRanges + [newMr] + ranges[n..], p + [m] + v[n..], |p|;
      assert a[c] == newMr && av[c] == m;
      forall k | n <= k < |ranges|
        ensures ranges[k].Valid() && ranges[k].View() == v[k] && newMr != ranges[k]
      {
        assert a[c + 1 + (k - n)] == ranges[k] && av[c + 1 + (k - n)] == v[k];
      }
    }

    /** The next range lies before the new data and is used as it is. */
    method SkipStep(newRanges: seq<MemoryRange>, newMr: MemoryRange, n: nat,
                    ghost p: seq<Range>, ghost m: Range, ghost v: seq<Range>, ghost w: Range)
      returns (newRanges': seq<MemoryRange>)
      requires Placing(newRanges, newMr, n, p, m, v, w) && n < |ranges| && v[n].End() < m.start
      requires overlapOk || Tracked(n, m, v, w)
      ensures newRanges' == newRanges + [ranges[n]]
      ensures Placing(newRanges', newMr, n + 1, p + [v[n]], m, v, w)
      ensures overlapOk || Tracked(n + 1, m, v, w)
    {
      MergeSkip(p, m, v, n, w);
      PlacingFacts(newRanges, newMr, n, p, m, v, w);
      newRanges' := newRanges + [ranges[n]];
      ghost var c := |p|;
      ghost var a, av := newRanges + [newMr] + ranges[n..], p + [m] + v[n..];
      ghost var b, bv := newRanges' + [newMr] + ranges[n + 1..], p + [v[n]] + [m] + v[n + 1..];
      forall i | 0 <= i < |b|
        ensures b[i].Valid() && b[i].View() == bv[i]
      {
        var k := if i == c then c + 1 else if i == c + 1 then c else i;
        assert b[i] == a[k] && bv[i] == av[k];
      }
      DistinctSwap(a, b, c);
    }

    /** The next range touches the new data and is joined with it. */
    method JoinStep(newRanges: seq<MemoryRange>, newMr: MemoryRange, n: nat,
                    ghost p: seq<Range>, ghost m: Range, ghost v: seq<Range>, ghost w: Range)
      returns (newMr': MemoryRange)
      requires Placing(newRanges, newMr, n, p, m, v, w) && n < |ranges| && Touch(m, v[n])
      modifies newMr, ranges[n]
      ensures newMr' == newMr || newMr' == ranges[n]
      ensures Placing(newRanges, newMr', n + 1, p, Joined(m, v[n]), v, w)
      ensures m.End() != v[n].start && m.start == v[n].End() ==> newMr' == ranges[n] && unchanged(newMr)
    {
      MergeJoin(p, m, v, n, w);
      ghost var c, a, av := |p|, newRanges + [newMr] + ranges[n..], p + [m] + v[n..];
      PairReplaced(p, m, v, n, Joined(m, v[n]));
      PairReplaced(newRanges, newMr, ranges, n, newMr);
      PairReplaced(newRanges, newMr, ranges, n, ranges[n]);
      newMr' := Join(newMr, ranges[n], a, c, av);
    }

    /** The same, keeping track of what a rejection would leave behind. */
    method TouchStep(newRanges: seq<MemoryRange>, newMr: MemoryRange, n: nat,
                     ghost p: seq<Range>, ghost m: Range, ghost v: seq<Range>, ghost w: Range)
      returns (newMr': MemoryRange)
      requires Distinct(ranges)
      requires Placing(newRanges, newMr, n, p, m, v, w) && n < |ranges| && Touch(m, v[n])
      requires overlapOk || (Tracked(n, m, v, w) && !Meet(m, v[n]))
      modifies newMr, ranges[n]
      ensures newMr' == newMr || newMr' == ranges[n]
      ensures Placing(newRanges, newMr', n + 1, p, Joined(m, v[n]), v, w)
      ensures overlapOk || Tracked(n + 1, Joined(m, v[n]), v, w)
    {
      if overlapOk {
        newMr' := JoinStep(newRanges, newMr, n, p, m, v, w);
      } else {
        newMr' := BesideStep(newRanges, newMr, n, p, m, v, w);
      }
    }

    method BesideStep(newRanges: seq<MemoryRange>, newMr: MemoryRange, n: nat,
                      ghost p: seq<Range>, ghost m: Range, ghost v: seq<Range>, ghost w: Range)
      returns (newMr': MemoryRange)
      requires Distinct(ranges)
      requires Placing(newRanges, newMr, n, p, m, v, w) && n < |ranges| && Touch(m, v[n])
      requires Tracked(n, m, v, w) && !Meet(m, v[n])
      modifies newMr, ranges[n]
      ensures newMr' == newMr || newMr' == ranges[n]
      ensures Placing(newRanges, newMr', n + 1, p, Joined(m, v[n]), v, w) && Tracked(n + 1, Joined(m, v[n]), v, w)
    {
      JoinedBeside(m, v[n]);
      if m.End() != v[n].start {
        assert m.End() == w.End();
        MergeFresh(p, m, v, n, w);
      }
      newMr' := JoinStep(newRanges, newMr, n, p, m, v, w);
      PlacingFacts(newRanges, newMr', n + 1, p, Joined(m, v[n]), v, w);
    }

    /** Whether a write may go ahead: nothing met before the search stopped at range `n` is met later either. */
    lemma NothingMet(n: nat, m: Range, v: seq<Range>, w: Range)
      requires n <= |ranges| == |v| && Canonical(v) && Tracked(n, m, v, w)
      requires w.End() <= m.End() && (n < |v| ==> m.End() < v[n].start)
      ensures !MeetsAny(v, w)
    {
      forall k | 0 <= k < |v|
        ensures !Meet(v[k], w)
      {
        assert k > n ==> v[n].End() < v[k].start;
      }
    }

    /** The state a rejected write leaves behind. */
    lemma Rejected(newRanges: seq<MemoryRange>, newMr: MemoryRange, n: nat,
                   p: seq<Range>, m: Range, v: seq<Range>, w: Range)
      requires Placing(newRanges, newMr, n, p, m, v, w) && Tracked(n, m, v, w) && Distinct(ranges)
      requires n < |ranges| && Meet(m, v[n])
      ensures MeetsAny(v, w) && Owned(ranges, LeftExtended(v, w.start, w.bytes))
    {
      MergeConflict(p, m, v, n, w);
      PlacingFacts(newRanges, newMr, n, p, m, v, w);
      assert n > 0 ==> v[n - 1].End() < v[n].start;
      forall k | n <= k < |v|
        ensures LeftExtended(v, w.start, w.bytes)[k] == v[k]
      {
        assert k > n ==> v[n].End() < v[k].start;
      }
    }

    /** One round of the search: stop before the next range, stop at a conflict, or deal with the range. */
    method Round(newRanges: seq<MemoryRange>, newMr: MemoryRange, n: nat,
                 ghost p: seq<Range>, ghost m: Range, ghost v: seq<Range>, ghost w: Range)
      returns (go: bool, conflict: bool, newRanges': seq<MemoryRange>, newMr': MemoryRange,
               ghost p': seq<Range>, ghost m': Range)
      requires Distinct(ranges) && n < |ranges|
      requires Placing(newRanges, newMr, n, p, m, v, w) && (overlapOk || Tracked(n, m, v, w))
      modifies newMr, ranges[n]
      ensures newMr' == newMr || newMr' == ranges[n]
      ensures newRanges' == newRanges || newRanges' == newRanges + [ranges[n]]
      ensures go ==> Placing(newRanges', newMr', n + 1, p', m', v, w) && (overlapOk || Tracked(n + 1, m', v, w))
      ensures !go ==> newRanges' == newRanges && newMr' == newMr && p' == p && m' == m
      ensures !go ==> Placing(newRanges, newMr, n, p, m, v, w) && (overlapOk || Tracked(n, m, v, w))
      ensures if conflict then !go && !overlapOk && Meet(m, v[n]) else go || m.End() < v[n].start
    {
      var thisMr := ranges[n];
      go, conflict, newRanges', newMr', p', m' := true, false, newRanges, newMr, p, m;
      assert thisMr.start == v[n].start && thisMr.end == v[n].End() && newMr.start == m.start
             && newMr.end == m.End() by {
        PlacingFacts(newRanges, newMr, n, p, m, v, w);
      }
      if newMr.end < thisMr.start {
        go := false;
      } else if newMr.start > thisMr.end {
        newRanges' := SkipStep(newRanges, newMr, n, p, m, v, w);
        p' := p + [v[n]];
      } else if !(newMr.end == thisMr.start || newMr.start == thisMr.end) && !overlapOk {
        go, conflict := false, true;
      } else {
        newMr' := TouchStep(newRanges, newMr, n, p, m, v, w);
        m' := Joined(m, v[n]);
      }
    }

    /** The search for the spot of the new data, joining it with every range it touches on the way. */
    method Search(first: MemoryRange, ghost v: seq<Range>, ghost w: Range)
      returns (conflict: bool, newRanges: seq<MemoryRange>, newMr: MemoryRange, n: nat, ghost p: seq<Range>,
               ghost m: Range)
      requires Distinct(ranges) && first !in ranges
      requires Placing([], first, 0, [], w, v, w) && Tracked(0, w, v, w)
      modifies ranges, first
      ensures Placing(newRanges, newMr, n, p, m, v, w) && (overlapOk || Tracked(n, m, v, w))
      ensures newMr in ranges || newMr == first
      ensures forall mr | mr in newRanges :: mr in ranges
      ensures if conflict then !overlapOk && n < |ranges| && Meet(m, v[n])
              else n == |ranges| || m.End() < v[n].start
    {
      conflict, newRanges, newMr, n, p, m := false, [], first, 0, [], w;
      while n < |ranges|
        invariant 0 <= n <= |ranges| && Placing(newRanges, newMr, n, p, m, v, w)
        invariant newMr in ranges || newMr == first
        invariant forall mr | mr in newRanges :: mr in ranges
        invariant overlapOk || Tracked(n, m, v, w)
        invariant !conflict
      {
        var go;
        go, conflict, newRanges, newMr, p, m := Round(newRanges, newMr, n, p, m, v, w);
        if !go {
          return;
        }
        n := n + 1;
      }
    }

    /** The list the search ends with. */
    lemma PlacingFinish(newRanges: seq<MemoryRange>, newMr: MemoryRange, n: nat,
                        p: seq<Range>, m: Range, v: seq<Range>, w: Range)
      requires Placing(newRanges, newMr, n, p, m, v, w) && (n == |ranges| || m.End() < v[n].start)
      ensures var nv := p + [m] + v[n..];
              && Owned(newRanges + [newMr] + ranges[n..], nv) && Canonical(nv) && Overwritten(nv, v, w)
              && forall i | 0 <= i < |nv| :: nv[i].End() <= topAddress
    {
      MergeFinish(p, m, v, n, w);
    }

    /** The new list of ranges, or none when data may not be overwritten and would be. */
    method Place(start: nat, value: seq<u8>) returns (ok: bool, newRanges: seq<MemoryRange>, ghost nv: seq<Range>)
      requires Ordered() && value != [] && start + |value| <= topAddress
      modifies ranges
      ensures ok <==> overlapOk || !MeetsAny(old(Views(ranges)), Range(start, value))
      ensures ok ==> Owned(newRanges, nv) && Canonical(nv)
                     && Overwritten(nv, old(Views(ranges)), Range(start, value))
                     && (forall i | 0 <= i < |nv| :: nv[i].End() <= topAddress)
                     && (forall i | 0 <= i < |newRanges| :: newRanges[i] in ranges || fresh(newRanges[i]))
      ensures !ok ==> Owned(ranges, LeftExtended(old(Views(ranges)), start, value))
    {
      ghost var v, w := Views(ranges), Range(start, value);
      var first := new MemoryRange(start, value);
      PlacingStart(first, v, w);
      var conflict, before, newMr, n;
      ghost var p, m;
      conflict, before, newMr, n, p, m := Search(first, v, w);
      ok := !conflict;
      nv := p + [m] + v[n..];
      newRanges := before + [newMr] + ranges[n..];
      SpliceMembers(before, newMr, ranges, n, first);
      if conflict {
        Rejected(before, newMr, n, p, m, v, w);
      } else {
        if !overlapOk {
          NothingMet(n, m, v, w);
        }
        PlacingFinish(before, newMr, n, p, m, v, w);
      }
    }

    /** `self[start:stop] = value`. */
    method Set(start: int, stop: int, value: seq<u8>) returns (r: WriteResult)
      requires Valid()
      modifies this, ranges
      ensures r == WriteOutcome(old(Views(ranges)), topAddress, old(overlapOk), start, stop, value)
      ensures r != OverlapError ==> Valid()
      ensures r == Written ==> Overwritten(Views(ranges), old(Views(ranges)), Range(start, value))
      ensures r == Written && value != [] ==> cursor == SliceEnd(start, stop) && maxGap == None && numBytes == None
      ensures r == OverlapError ==>
                ranges == old(ranges) && Views(ranges) == LeftExtended(old(Views(ranges)), start, value)
      ensures r == IndexError || r == SizeError || value == [] ==> unchanged(this) && unchanged(ranges)
      ensures overlapOk == old(overlapOk) && gapFillByte == old(gapFillByte)
      ensures forall i | 0 <= i < |ranges| :: ranges[i] in old(ranges) || fresh(ranges[i])
    {
      var end := SliceEnd(start, stop);
      if start < 0 || end > topAddress {
        return IndexError;
      } else if |value| != end - start {
        return SizeError;
      }
      if |value| == 0 {
        return Written;
      }
      var ok, newRanges;
      ghost var nv;
      ok, newRanges, nv := Place(start, value);
      if !ok {
        assert Views(ranges) == LeftExtended(old(Views(ranges)), start, value);
        return OverlapError;
      }
      cursor := end;
      Install(newRanges, nv);
      return Written;
    }

    /** A new list of ranges takes the place of the old one; nothing is cached for it. */
    method Install(newRanges: seq<MemoryRange>, ghost nv: seq<Range>)
      requires Owned(newRanges, nv) && Canonical(nv) && forall i | 0 <= i < |nv| :: nv[i].End() <= topAddress
      modifies this`ranges, this`maxGap, this`numBytes
      ensures Valid() && ranges == newRanges && Views(ranges) == nv && maxGap == None && numBytes == None
    {
      maxGap := None;
      numBytes := None;
      ranges := newRanges;
      assert Views(ranges) == nv;
    }

    /** The loop over the ranges, up to the first that starts at or after the end. */
    method Collect(start: nat, end: nat, ghost v: seq<Range>) returns (bytes: seq<u8>)
      requires Owned(ranges, v) && Canonical(v) && start <= end
      ensures bytes == ReadBack(v, start, end, gapFillByte)
    {
      var gap := gapFillByte;
      bytes := seq(end - start, _ => gap);
      var n := 0;
      assert v[..0] == [];
      ReadEmpty(start, end, gap, bytes);
      while n < |ranges|
        invariant 0 <= n <= |ranges| && bytes == ReadBack(v[..n], start, end, gap)
      {
        var mr := ranges[n];
        assert mr.View() == v[n];
        if start >= mr.end {
          ReadSkip(v, n, start, end, gap);
        } else if end <= mr.start {
          ReadRest(v, n, start, end, gap);
          return;
        } else {
          bytes := CopyPart(mr, bytes, start, end, v, n);
        }
        n := n + 1;
      }
      assert v[..n] == v;
    }

    /** The part of a range that lies in the slice is copied. */
    method CopyPart(mr: MemoryRange, bytes: seq<u8>, start: nat, end: nat, ghost v: seq<Range>, ghost n: nat)
      returns (bytes': seq<u8>)
      requires n < |v| && mr.Valid() && mr.View() == v[n] && start < mr.end && mr.start < end && start <= end
      requires bytes == ReadBack(v[..n], start, end, gapFillByte)
      ensures bytes' == ReadBack(v[..n + 1], start, end, gapFillByte)
    {
      var readStart := if start > mr.start then start else mr.start;
      var readEnd := Min(end, mr.end);
      ReadCopy(v, n, start, end, gapFillByte, readStart, readEnd);
      var piece := mr.buffer[readStart - mr.start..readEnd - mr.start];
      SliceSlice(mr.buffer, 0, mr.numBytes, readStart - mr.start, readEnd - mr.start);
      bytes' := bytes[..readStart - start] + piece + bytes[readEnd - start..];
    }

    /** `self[start:stop]` */
    method Get(start: int, stop: int) returns (r: Option<seq<u8>>)
      requires Ordered()
      ensures r.None? <==> start < 0 || SliceEnd(start, stop) > topAddress
      ensures r.Some? ==> r.value == ReadBack(Views(ranges), start, SliceEnd(start, stop), gapFillByte)
    {
      var end := SliceEnd(start, stop);
      if start < 0 || end > topAddress {
        return None;
      }
      var bytes := Collect(start, end, Views(ranges));
      r := Some(bytes);
    }

    /** `del self[start:stop]`; false where the code raises. */
    method Delete(start: int, end: int) returns (ok: bool)
      requires Valid()
      modifies this
      ensures Valid()
      ensures ok <==> 0 <= start && 0 <= end && (start >= end || (start < topAddress && end <= topAddress))
      ensures if ok then Removed(Views(ranges), old(Views(ranges)), start, end) else unchanged(this)
      ensures cursor == old(cursor) && overlapOk == old(overlapOk) && gapFillByte == old(gapFillByte)
      ensures forall i | 0 <= i < |ranges| :: ranges[i] in old(ranges) || fresh(ranges[i])
    {
      if start < 0 || end < 0 {
        return false;
      } else if start >= end {
        return true;
      } else if start >= topAddress || end > topAddress {
        return false;
      }
      var newRanges;
      ghost var nv;
      newRanges, nv := Cut(start, end, Views(ranges));
      assert forall i | 0 <= i < |nv| :: nv[i].End() == newRanges[i].end;
      Install(newRanges, nv);
      return true;
    }

    /** The list of ranges with the cut taken out of them. */
    method Cut(start: int, end: int, ghost v: seq<Range>) returns (newRanges: seq<MemoryRange>, ghost nv: seq<Range>)
      requires Owned(ranges, v) && Canonical(v) && start < end
      requires forall mr | mr in ranges :: mr.end <= topAddress
      ensures Owned(newRanges, nv) && Canonical(nv) && Removed(nv, v, start, end)
      ensures forall mr | mr in newRanges :: (mr in ranges || fresh(mr)) && mr.end <= topAddress
    {
      ghost var p: seq<Range> := [];
      newRanges := [];
      var n := 0;
      assert v[..0] == [];
      while n < |ranges| && end > ranges[n].start
        invariant 0 <= n <= |ranges| && Cutting(p, v, n, start, end)
        invariant Owned(newRanges + ranges[n..], p + v[n..])
        invariant |newRanges| == |p|
        invariant forall mr | mr in newRanges :: (mr in ranges || fresh(mr)) && mr.end <= topAddress
      {
        newRanges, p := CutRound(newRanges, n, start, end, p, v);
        n := n + 1;
      }
      nv := p + v[n..];
      assert Canonical(nv) && Removed(nv, v, start, end) by {
        CutFinish(p, v, n, start, end);
      }
      newRanges := newRanges + ranges[n..];
    }

    /** One round of the loop. */
    method CutRound(newRanges: seq<MemoryRange>, n: nat, start: int, end: int, ghost p: seq<Range>, ghost v: seq<Range>)
      returns (newRanges': seq<MemoryRange>, ghost p': seq<Range>)
      requires n < |ranges| == |v| && |newRanges| == |p| && start < end && end > ranges[n].start
      requires Canonical(v) && Cutting(p, v, n, start, end)
      requires Owned(newRanges + ranges[n..], p + v[n..])
      ensures Cutting(p', v, n + 1, start, end) && |p'| == |newRanges'|
      ensures Owned(newRanges' + ranges[n + 1..], p' + v[n + 1..])
      ensures forall mr | mr in newRanges' ::
                  mr in newRanges || ((mr == ranges[n] || fresh(mr)) && mr.end <= ranges[n].end)
    {
      ghost var c := CutOut(v[n], start, end);
      assert ranges[n].Valid() && ranges[n].View() == v[n] by {
        ghost var a, av := newRanges + ranges[n..], p + v[n..];
        assert a[|p|] == ranges[n] && av[|p|] == v[n];
      }
      assert Cutting(p + c, v, n + 1, start, end) by {
        CutOutIsCut(v[n], start, end);
        CutStep(p, v, n, c, start, end);
      }
      assert Owned(newRanges + ranges[n..], p + v[n..]);
      var pieces := CutRange(ranges[n], start, end);
      assert Owned(newRanges + ranges[n..], p + v[n..]);
      assert Owned(newRanges + pieces + ranges[n + 1..], p + c + v[n + 1..]) by {
        assert forall mr | mr in pieces :: mr == ranges[n..][0] || mr !in newRanges + ranges[n..];
        OwnedReplaced(newRanges, ranges[n..], pieces, p, v[n..], c);
        assert ranges[n..][1..] == ranges[n + 1..] && v[n..][1..] == v[n + 1..];
      }
      p', newRanges' := p + c, newRanges + pieces;
    }

    /** What is kept of one range: the range itself, nothing, or one or two new ones. */
    method CutRange(thisMr: MemoryRange, start: int, end: int) returns (pieces: seq<MemoryRange>)
      requires thisMr.Valid() && start < end && end > thisMr.start && thisMr.numBytes > 0
      ensures Owned(pieces, CutOut(thisMr.View(), start, end))
      ensures forall mr | mr in pieces :: (mr == thisMr || fresh(mr)) && mr.end <= thisMr.end
    {
      ghost var t := thisMr.View();
      if start >= thisMr.end {
        assert t.bytes[..|t.bytes|] == t.bytes;
        pieces := [thisMr];
      } else if start <= thisMr.start && end >= thisMr.end {
        pieces := [];
      } else {
        pieces := [];
        if start > thisMr.start {
          var left := start - thisMr.start;
          var head := new MemoryRange(thisMr.start, thisMr.buffer[..left]);
          assert head.View().bytes == t.bytes[..left];
          pieces := [head];
        }
        if end < thisMr.end {
          var right := thisMr.numBytes - (thisMr.end - end);
          var tail := new MemoryRange(end, thisMr.buffer[right..thisMr.numBytes]);
          assert tail.View().bytes == t.bytes[right..];
          pieces := pieces + [tail];
        }
      }
    }

    method FindMaxGap(ghost v: seq<Range>) returns (largest: nat)
      requires Owned(ranges, v) && Canonical(v)
      ensures largest == LargestGap(v)
    {
      largest := 0;
      var n := 0;
      while n + 1 < |ranges|
        invariant 0 <= n && (n < |ranges| || n == |ranges| == 0)
        invariant largest == if v == [] then 0 else LargestGap(v[..n + 1])
      {
        LargestGapStep(v, n);
        var gap := GapBehind(n, v);
        if gap > largest {
          largest := gap;
        }
        n := n + 1;
      }
      assert v != [] ==> v[..n + 1] == v;
    }

    method GapBehind(n: nat, ghost v: seq<Range>) returns (gap: nat)
      requires Owned(ranges, v) && Canonical(v) && n + 1 < |ranges|
      ensures gap == v[n + 1].start - v[n].End()
    {
      assert v[n] == ranges[n].View() && v[n + 1] == ranges[n + 1].View();
      gap := ranges[n + 1].start - ranges[n].end;
    }

    /** `max_gap`, calculated when not cached. */
    method MaxGap() returns (gap: nat)
      requires Valid()
      modifies this`maxGap
      ensures Valid() && gap == LargestGap(Views(ranges))
    {
      if maxGap == None {
        ghost var v := Views(ranges);
        var largest := FindMaxGap(v);
        maxGap := Some(largest);
        assert Views(ranges) == v;
      }
      gap := maxGap.value;
    }

    method SumBytes() returns (sum: nat)
      requires Ordered()
      ensures sum == ByteCount(Views(ranges))
    {
      ghost var v := Views(ranges);
      sum := 0;
      var n := 0;
      while n < |ranges|
        invariant 0 <= n <= |ranges| && sum == ByteCount(v[..n])
      {
        assert v[n] == ranges[n].View() && v[..n + 1][..n] == v[..n];
        sum := sum + ranges[n].numBytes;
        n := n + 1;
      }
      assert v[..n] == v;
    }

    /** `num_bytes`, calculated when not cached. */
    method NumBytes() returns (count: nat)
      requires Valid()
      modifies this`numBytes
      ensures Valid() && count == ByteCount(Views(ranges))
    {
      if numBytes == None {
        var sum := SumBytes();
        numBytes := Some(sum);
      }
      count := numBytes.value;
    }

    method Trim()
      requires Valid()
      modifies ranges
      ensures Valid() && Views(ranges) == old(Views(ranges))
    {
      ghost var v := Views(ranges);
      var n := 0;
      while n < |ranges|
        invariant 0 <= n <= |ranges|
        invariant Owned(ranges, v) && forall i | 0 <= i < |ranges| :: ranges[i].end <= topAddress
      {
        ranges[n].Trim();
        n := n + 1;
      }
      assert Views(ranges) == v;
    }

    method SetCursor(address: int)
      requires Valid()
      modifies this`cursor
      ensures Valid() && cursor == address
    {
      cursor := address;
    }

    method SetOverlapOk(allowed: bool)
      requires Valid()
      modifies this`overlapOk
      ensures Valid() && overlapOk == allowed
    {
      overlapOk := allowed;
    }

    /** `self += bytes`: the data goes to the cursor, which moves past it. */
    method AddBytes(value: seq<u8>) returns (r: WriteResult)
      requires Valid()
      modifies this, ranges
      ensures r == WriteOutcome(old(Views(ranges)), topAddress, old(overlapOk),
                                old(cursor), old(cursor) + |value|, value)
      ensures r != OverlapError ==> Valid()
      ensures r == Written ==> Overwritten(Views(ranges), old(Views(ranges)), Range(old(cursor), value))
      ensures r == Written ==> cursor == old(cursor) + |value|
      ensures overlapOk == old(overlapOk) && gapFillByte == old(gapFillByte)
      ensures forall i | 0 <= i < |ranges| :: ranges[i] in old(ranges) || fresh(ranges[i])
    {
      r := Set(cursor, cursor + |value|, value);
    }

    /** `memory_ranges()`, as values. */
    method MemoryRanges() returns (v: seq<Range>)
      requires Ordered()
      ensures v == Views(ranges)
    {
      v := [];
      var n := 0;
      while n < |ranges|
        invariant 0 <= n <= |ranges| && v == Views(ranges)[..n]
      {
        v := v + [ranges[n].View()];
        n := n + 1;
      }
    }

    /**
     `self += other`: every range of the other memory is written in turn, which leaves the
     cursor behind the last one, and spare room is freed.
     */
    method AddMemory(top: seq<Range>) returns (r: WriteResult)
      requires Valid() && Canonical(top)
      modifies this, ranges
      ensures r == Written <==> forall i | 0 <= i < |top| ::
                top[i].End() <= topAddress && (overlapOk || !MeetsAny(old(Views(ranges)), top[i]))
      ensures r == Written ==> Valid() && Overlaid(Views(ranges), old(Views(ranges)), top)
      ensures r == Written ==> cursor == CursorBehind(old(cursor), top)
      ensures overlapOk == old(overlapOk) && gapFillByte == old(gapFillByte)
      ensures forall i | 0 <= i < |ranges| :: ranges[i] in old(ranges) || fresh(ranges[i])
    {
      r := AddRanges(top);
      if r == Written {
        Trim();
      }
    }

    /** The loop over the ranges. */
    method AddRanges(top: seq<Range>) returns (r: WriteResult)
      requires Valid() && Canonical(top)
      modifies this, ranges
      ensures r == Written <==> forall i | 0 <= i < |top| ::
                top[i].End() <= topAddress && (overlapOk || !MeetsAny(old(Views(ranges)), top[i]))
      ensures r == Written ==> Valid() && Overlaid(Views(ranges), old(Views(ranges)), top)
      ensures r == Written ==> cursor == CursorBehind(old(cursor), top)
      ensures overlapOk == old(overlapOk) && gapFillByte == old(gapFillByte)
      ensures forall i | 0 <= i < |ranges| :: ranges[i] in old(ranges) || fresh(ranges[i])
    {
      ghost var was := Views(ranges);
      var n := 0;
      r := Written;
      assert top[..0] == [];
      while n < |top|
        invariant 0 <= n <= |top| && Valid() && r == Written
        invariant overlapOk == old(overlapOk) && gapFillByte == old(gapFillByte)
        invariant Overlaid(Views(ranges), was, top[..n])
        invariant cursor == if n == 0 then old(cursor) else top[n - 1].End()
        invariant forall i | 0 <= i < |ranges| :: ranges[i] in old(ranges) || fresh(ranges[i])
        invariant forall i | 0 <= i < n :: top[i].End() <= topAddress && (overlapOk || !MeetsAny(was, top[i]))
      {
        r := AddRange(top, n, was);
        if r != Written {
          return;
        }
        n := n + 1;
      }
      assert top[..n] == top;
    }

    /** The next range of `top` is written. */
    method AddRange(top: seq<Range>, n: nat, ghost was: seq<Range>) returns (r: WriteResult)
      requires Valid() && Canonical(top) && Canonical(was) && n < |top| && Overlaid(Views(ranges), was, top[..n])
      modifies this, ranges
      ensures r == Written <==> top[n].End() <= topAddress && (overlapOk || !MeetsAny(was, top[n]))
      ensures r == Written ==> Valid() && Overlaid(Views(ranges), was, top[..n + 1]) && cursor == top[n].End()
      ensures overlapOk == old(overlapOk) && gapFillByte == old(gapFillByte)
      ensures forall i | 0 <= i < |ranges| :: ranges[i] in old(ranges) || fresh(ranges[i])
    {
      ghost var rs := Views(ranges);
      OverlaidMeets(rs, was, top, n);
      r := Set(top[n].start, top[n].End(), top[n].bytes);
      if r == Written {
        OverlaidStep(rs, Views(ranges), was, top, n);
      }
    }
  }

  /** The cursor after the ranges have been written. */
  function CursorBehind(cursor: int, top: seq<Range>): int
  {
    if top == [] then cursor else top[|top| - 1].End()
  }

  /**
   Adding a memory leaves the cursor where it is exactly if there is nothing to add or the last range
   ends at the cursor. So the cursor of a new memory moves whenever there is something to add.
   */
  lemma {:induction false} CursorKept(cursor: int, top: seq<Range>)
    requires Canonical(top)
    ensures CursorBehind(cursor, top) == cursor <==> top == [] || top[|top| - 1].End() == cursor
    ensures CursorBehind(0, top) == 0 <==> top == []
  {
    assert top != [] ==> top[|top| - 1].bytes != [];
  }

  ghost predicate Distinct<T>(a: seq<T>) {
    forall i, j | 0 <= i < j < |a| :: a[i] != a[j]
  }

  /** Two neighbours replaced by one of them: still no object twice. */
  lemma DistinctSplice<T>(a: seq<T>, c: nat, x: T)
    requires Distinct(a) && c + 1 < |a| && (x == a[c] || x == a[c + 1])
    ensures Distinct(a[..c] + [x] + a[c + 2..])
  {
    var b := a[..c] + [x] + a[c + 2..];
    forall i, j | 0 <= i < j < |b|
      ensures b[i] != b[j]
    {
      var at := k requires 0 <= k < |b| => if k < c then k else if k > c then k + 1 else if x == a[c] then c else c + 1;
      assert b[i] == a[at(i)] && b[j] == a[at(j)] && at(i) < at(j);
    }
  }

  lemma SpliceMembers<T>(before: seq<T>, x: T, rest: seq<T>, n: nat, y: T)
    requires n <= |rest| && (forall z | z in before :: z in rest) && (x in rest || x == y)
    ensures var s := before + [x] + rest[n..]; forall i | 0 <= i < |s| :: s[i] in rest || s[i] == y
  {
  }

  lemma PairReplaced<T>(p: seq<T>, x: T, rest: seq<T>, n: nat, z: T)
    requires n < |rest|
    ensures var a, c := p + [x] + rest[n..], |p|;
            && a[c] == x && a[c + 1] == rest[n]
            && a[..c] + [z] + a[c + 2..] == p + [z] + rest[n + 1..]
  {
  }

  lemma DistinctSwap<T>(a: seq<T>, b: seq<T>, c: nat)
    requires Distinct(a) && |a| == |b| && c + 1 < |a|
    requires b[c] == a[c + 1] && b[c + 1] == a[c]
    requires forall i | 0 <= i < |a| && i != c && i != c + 1 :: b[i] == a[i]
    ensures Distinct(b)
  {
    forall i, j | 0 <= i < j < |b|
      ensures b[i] != b[j]
    {
      var at := k => if k == c then c + 1 else if k == c + 1 then c else k;
      assert b[i] == a[at(i)] && b[j] == a[at(j)];
    }
  }

  /** The objects are distinct, in order, and stand for the ranges of `v`. */
  ghost predicate Owned(a: seq<MemoryRange>, v: seq<Range>)
    reads a
  {
    && |a| == |v| && Distinct(a)
    && forall i | 0 <= i < |a| :: a[i].Valid() && a[i].View() == v[i]
  }

  /** The first of the remaining objects is replaced by objects that are new or the same one. */
  lemma OwnedReplaced(a: seq<MemoryRange>, rest: seq<MemoryRange>, pieces: seq<MemoryRange>,
                      p: seq<Range>, v: seq<Range>, c: seq<Range>)
    requires |a| == |p| && rest != [] && Owned(a + rest, p + v)
    requires Owned(pieces, c)
    requires forall mr | mr in pieces :: mr == rest[0] || mr !in a + rest
    ensures Owned((a + pieces) + rest[1..], (p + c) + v[1..])
  {
    var whole, b, bv, k := a + rest, (a + pieces) + rest[1..], (p + c) + v[1..], |a|;
    forall i | 0 <= i < |b|
      ensures b[i].Valid() && b[i].View() == bv[i]
    {
      if i < k {
        assert b[i] == whole[i];
      } else if i < k + |pieces| {
        assert b[i] == pieces[i - k];
      } else {
        assert b[i] == whole[i - |pieces| + 1];
      }
    }
    DistinctReplaced(a, rest, pieces);
  }

  lemma DistinctReplaced<T>(a: seq<T>, rest: seq<T>, pieces: seq<T>)
    requires rest != [] && Distinct(a + rest) && Distinct(pieces)
    requires forall x | x in pieces :: x == rest[0] || x !in a + rest
    ensures Distinct((a + pieces) + rest[1..])
  {
    var whole, b, k := a + rest, (a + pieces) + rest[1..], |a|;
    var m := k + |pieces|;
    forall i, j | 0 <= i < j < |b|
      ensures b[i] != b[j]
    {
      var keep := t => if t < k then t else t - |pieces| + 1;
      assert forall t | 0 <= t < |b| && !(k <= t < m) :: b[t] == whole[keep(t)] && keep(t) != k;
      assert forall t | k <= t < m :: b[t] == pieces[t - k];
      if k <= i < m && k <= j < m {
        assert pieces[i - k] != pieces[j - k];
      } else if k <= i < m {
        assert b[i] in pieces && b[j] in whole && whole[keep(j)] != whole[k];
      } else if k <= j < m {
        assert b[j] in pieces && b[i] in whole && whole[keep(i)] != whole[k];
      } else {
        assert whole[keep(i)] != whole[keep(j)];
      }
    }
  }

  /** What a rejected write leaves behind: a range that ended where the write starts has already grown. */
  function LeftExtended(v: seq<Range>, start: int, value: seq<u8>): (r: seq<Range>)
    ensures |r| == |v|
  {
    seq(|v|, k requires 0 <= k < |v| =>
      if v[k].End() == start then Range(v[k].start, v[k].bytes + value) else v[k])
  }

  /** How a write ends: the checks in the order in which they are made. */
  predicate Fits(topAddress: nat, start: int, stop: int) {
    0 <= start && SliceEnd(start, stop) <= topAddress
  }

  function WriteOutcome(v: seq<Range>, topAddress: nat, overlapOk: bool, start: int, stop: int,
                        value: seq<u8>): WriteResult
  {
    if !Fits(topAddress, start, stop) then IndexError
    else if |value| != SliceEnd(start, stop) - start then SizeError
    else if value != [] && !overlapOk && MeetsAny(v, Range(start, value)) then OverlapError
    else Written
  }

  /** The end of a slice, a reversed one counting as empty. */
  function SliceEnd(start: int, stop: int): (end: int)
    ensures start <= end && stop <= end && (end == start || end == stop)
  {
    if start > stop then start else stop
  }
}
