/**
 The value a sparse memory stands for: an ordered list of byte ranges read as a partial map
 from addresses to bytes.
 */
module MemoryMap {
  import opened Wrappers
  import opened Bytes

  /** Contiguous data at an address. */
  datatype Range = Range(start: nat, bytes: seq<u8>) {
    /** Address after the last byte. */
    function End(): nat { start + |bytes| }

    predicate Holds(a: int) { start <= a < End() }

    function At(a: int): u8
      requires Holds(a)
    {
      bytes[a - start]
    }
  }

  /** The byte stored at an address, if any. */
  function Lookup(rs: seq<Range>, a: int): Option<u8>
  {
    if rs == [] then None
    else if rs[|rs| - 1].Holds(a) then Some(rs[|rs| - 1].At(a))
    else Lookup(rs[..|rs| - 1], a)
  }

  /** Sorted, non-empty and strictly separated: neighbours that touch have been joined. */
  predicate Canonical(rs: seq<Range>) {
    && (forall i | 0 <= i < |rs| :: rs[i].bytes != [])
    && (forall i, j | 0 <= i < j < |rs| :: rs[i].End() < rs[j].start)
  }

  /** Two lists that stand for the same map. */
  ghost predicate SameBytes(rs: seq<Range>, qs: seq<Range>) {
    forall a: int :: Lookup(rs, a) == Lookup(qs, a)
  }

  lemma LookupSnoc(rs: seq<Range>, r: Range, a: int)
    ensures Lookup(rs + [r], a) == if r.Holds(a) then Some(r.At(a)) else Lookup(rs, a)
  {
    assert (rs + [r])[..|rs|] == rs;
  }

  /** An address is stored exactly when one of the ranges holds it. */
  lemma {:induction false} LookupSome(rs: seq<Range>, a: int)
    ensures Lookup(rs, a).Some? <==> exists i :: 0 <= i < |rs| && rs[i].Holds(a)
  {
    if rs != [] {
      var init, n := rs[..|rs| - 1], |rs| - 1;
      LookupSome(init, a);
      if exists i :: 0 <= i < |rs| && rs[i].Holds(a) {
        var i :| 0 <= i < |rs| && rs[i].Holds(a);
        if i < n { assert init[i].Holds(a); }
      }
      if Lookup(init, a).Some? {
        var i :| 0 <= i < |init| && init[i].Holds(a);
        assert rs[i].Holds(a);
      }
    }
  }

  /** In a canonical list the range that holds an address decides its byte. */
  lemma {:induction false} LookupAt(rs: seq<Range>, i: nat, a: int)
    requires Canonical(rs) && i < |rs| && rs[i].Holds(a)
    ensures Lookup(rs, a) == Some(rs[i].At(a))
  {
    var n := |rs| - 1;
    if i < n {
      assert rs[i].End() < rs[n].start;
      LookupAt(rs[..n], i, a);
    }
  }

  lemma LookupNone(rs: seq<Range>, a: int)
    requires forall i | 0 <= i < |rs| :: !rs[i].Holds(a)
    ensures Lookup(rs, a) == None
  {
    LookupSome(rs, a);
  }

  /** The list is determined by the map: two canonical lists with the same bytes are the same list. */
  lemma {:induction false} CanonicalUnique(rs: seq<Range>, qs: seq<Range>)
    requires Canonical(rs) && Canonical(qs)
    requires SameBytes(rs, qs)
    ensures rs == qs
    decreases |rs|
  {
    if rs == [] || qs == [] {
      if rs != [] { LookupAt(rs, 0, rs[0].start); }
      if qs != [] { LookupAt(qs, 0, qs[0].start); }
    } else {
      var n, m := |rs| - 1, |qs| - 1;
      LastSame(rs, qs);
      InitSame(rs, qs);
      CanonicalUnique(rs[..n], qs[..m]);
      assert rs == rs[..n] + [rs[n]] && qs == qs[..m] + [qs[m]];
    }
  }

  lemma LastSame(rs: seq<Range>, qs: seq<Range>)
    requires Canonical(rs) && Canonical(qs) && rs != [] && qs != []
    requires SameBytes(rs, qs)
    ensures rs[|rs| - 1] == qs[|qs| - 1]
  {
    var n, m := |rs| - 1, |qs| - 1;
    var r, q := rs[n], qs[m];
    LastEnd(rs, qs);
    LastEnd(qs, rs);
    LastStart(rs, qs);
    LastStart(qs, rs);
    forall k | 0 <= k < |r.bytes|
      ensures r.bytes[k] == q.bytes[k]
    {
      LookupAt(rs, n, r.start + k);
      LookupAt(qs, m, r.start + k);
    }
  }

  lemma InitSame(rs: seq<Range>, qs: seq<Range>)
    requires Canonical(rs) && Canonical(qs) && rs != [] && qs != []
    requires SameBytes(rs, qs)
    requires rs[|rs| - 1] == qs[|qs| - 1]
    ensures SameBytes(rs[..|rs| - 1], qs[..|qs| - 1])
  {
    var n, m := |rs| - 1, |qs| - 1;
    forall a: int
      ensures Lookup(rs[..n], a) == Lookup(qs[..m], a)
    {
      if rs[n].Holds(a) {
        LookupNone(rs[..n], a);
        LookupNone(qs[..m], a);
      } else {
        assert Lookup(rs, a) == Lookup(qs, a);
      }
    }
  }

  lemma LastEnd(rs: seq<Range>, qs: seq<Range>)
    requires Canonical(rs) && Canonical(qs) && rs != [] && qs != []
    requires SameBytes(rs, qs)
    ensures rs[|rs| - 1].End() <= qs[|qs| - 1].End()
  {
    var n, m := |rs| - 1, |qs| - 1;
    var a := rs[n].End() - 1;
    LookupAt(rs, n, a);
    LookupSome(qs, a);
    var i :| 0 <= i < |qs| && qs[i].Holds(a);
  }

  lemma LastStart(rs: seq<Range>, qs: seq<Range>)
    requires Canonical(rs) && Canonical(qs) && rs != [] && qs != []
    requires SameBytes(rs, qs)
    requires rs[|rs| - 1].End() == qs[|qs| - 1].End()
    ensures rs[|rs| - 1].start <= qs[|qs| - 1].start
  {
    var n, m := |rs| - 1, |qs| - 1;
    if qs[m].start < rs[n].start {
      var a := rs[n].start - 1;
      LookupAt(qs, m, a);
      LookupNone(rs, a);
    }
  }

  /** The byte at `start + k`, or the fill byte where nothing is stored. */
  function ByteAt(rs: seq<Range>, start: int, k: int, gap: u8): u8
  {
    var b := Lookup(rs, start + k);
    if b.Some? then b.value else gap
  }

  /** The bytes of `[start, end)`, unstored addresses filled with `gap`. */
  function ReadBack(rs: seq<Range>, start: nat, end: nat, gap: u8): (bs: seq<u8>)
    requires start <= end
    ensures |bs| == end - start
  {
    seq(end - start, k requires 0 <= k < end - start => ByteAt(rs, start, k, gap))
  }

  lemma ReadEmpty(start: nat, end: nat, gap: u8, bs: seq<u8>)
    requires start <= end && |bs| == end - start && forall k | 0 <= k < |bs| :: bs[k] == gap
    ensures bs == ReadBack([], start, end, gap)
  {
  }

  /** Reading over one range more copies the part of it that lies in the slice. */
  lemma ReadStep(v: seq<Range>, n: nat, start: nat, end: nat, gap: u8, k: nat)
    requires n < |v| && start + k < end
    ensures ReadBack(v[..n + 1], start, end, gap)[k]
         == if v[n].Holds(start + k) then v[n].bytes[start + k - v[n].start] else ReadBack(v[..n], start, end, gap)[k]
  {
    LookupPrefixStep(v, n, start + k);
  }

  lemma ReadSkip(v: seq<Range>, n: nat, start: nat, end: nat, gap: u8)
    requires n < |v| && start <= end && start >= v[n].End()
    ensures ReadBack(v[..n + 1], start, end, gap) == ReadBack(v[..n], start, end, gap)
  {
    var x, y := ReadBack(v[..n + 1], start, end, gap), ReadBack(v[..n], start, end, gap);
    forall k | 0 <= k < end - start
      ensures x[k] == y[k]
    {
      ReadStep(v, n, start, end, gap, k);
    }
  }

  lemma ReadRest(v: seq<Range>, n: nat, start: nat, end: nat, gap: u8)
    requires Canonical(v) && n < |v| && start <= end <= v[n].start
    ensures ReadBack(v, start, end, gap) == ReadBack(v[..n], start, end, gap)
  {
    var x, y := ReadBack(v, start, end, gap), ReadBack(v[..n], start, end, gap);
    forall k | 0 <= k < end - start
      ensures x[k] == y[k]
    {
      LookupConcat(v[..n], v[n..], start + k);
      assert v == v[..n] + v[n..];
      LookupAfter(v, n, start + k);
    }
  }

  lemma ReadCopy(v: seq<Range>, n: nat, start: nat, end: nat, gap: u8, lo: nat, hi: nat)
    requires n < |v| && start <= lo <= hi <= end && v[n].start <= lo && hi <= v[n].End()
    requires forall a: int | start <= a < end && v[n].Holds(a) :: lo <= a < hi
    ensures var was := ReadBack(v[..n], start, end, gap);
            ReadBack(v[..n + 1], start, end, gap)
            == was[..lo - start] + v[n].bytes[lo - v[n].start..hi - v[n].start] + was[hi - start..]
  {
    var x, was := ReadBack(v[..n + 1], start, end, gap), ReadBack(v[..n], start, end, gap);
    var piece := v[n].bytes[lo - v[n].start..hi - v[n].start];
    var y := was[..lo - start] + piece + was[hi - start..];
    forall k | 0 <= k < end - start
      ensures x[k] == y[k]
    {
      ReadStep(v, n, start, end, gap, k);
      if lo <= start + k < hi {
        assert v[n].Holds(start + k);
        assert y[k] == piece[k - (lo - start)];
      } else {
        assert !v[n].Holds(start + k);
      }
    }
  }

  /** Total number of stored bytes. */
  function ByteCount(rs: seq<Range>): nat
  {
    if rs == [] then 0 else ByteCount(rs[..|rs| - 1]) + |rs[|rs| - 1].bytes|
  }

  /** Largest distance between neighbours. */
  function LargestGap(rs: seq<Range>): (g: nat)
  {
    if |rs| <= 1 then 0
    else
      var n := |rs| - 1;
      var g, here := LargestGap(rs[..n]), rs[n].start - rs[n - 1].End();
      if here > g then here else g
  }

  lemma LargestGapStep(rs: seq<Range>, n: nat)
    requires n + 1 < |rs|
    ensures var g, here := LargestGap(rs[..n + 1]), rs[n + 1].start - rs[n].End();
            LargestGap(rs[..n + 2]) == if here > g then here else g
  {
    assert rs[..n + 2][..n + 1] == rs[..n + 1];
  }

  // ---- Writing ------------------------------------------------------------------------------

  /** Two ranges overlap or touch. */
  predicate Touch(p: Range, q: Range) { p.start <= q.End() && q.start <= p.End() }

  /** Two ranges have an address in common. */
  predicate Meet(p: Range, q: Range) { p.start < q.End() && q.start < p.End() }

  predicate MeetsAny(rs: seq<Range>, w: Range) { exists i :: 0 <= i < |rs| && Meet(rs[i], w) }

  /** Both ranges as one; where they overlap the bytes of `w` win. */
  function Joined(w: Range, t: Range): (r: Range)
    requires Touch(w, t)
  {
    var start, end := Min(w.start, t.start), if w.End() > t.End() then w.End() else t.End();
    Range(start, seq(end - start, k requires 0 <= k < end - start => JoinedAtOffset(w, t, start, k)))
  }

  function JoinedAtOffset(w: Range, t: Range, start: int, k: int): u8
    requires w.Holds(start + k) || t.Holds(start + k)
  {
    JoinedByte(w, t, start + k)
  }

  function JoinedByte(w: Range, t: Range, a: int): u8
    requires w.Holds(a) || t.Holds(a)
  {
    if w.Holds(a) then w.At(a) else t.At(a)
  }

  lemma JoinedAt(w: Range, t: Range, a: int)
    requires Touch(w, t)
    ensures Joined(w, t).Holds(a) <==> w.Holds(a) || t.Holds(a)
    ensures Joined(w, t).Holds(a) ==> Joined(w, t).At(a) == JoinedByte(w, t, a)
  {
  }

  /** `rs` is `was` overwritten with `w`. */
  ghost predicate Overwritten(rs: seq<Range>, was: seq<Range>, w: Range) {
    forall a: int :: Lookup(rs, a) == if w.Holds(a) then Some(w.At(a)) else Lookup(was, a)
  }

  lemma OverwrittenAt(rs: seq<Range>, was: seq<Range>, w: Range, a: int)
    requires Overwritten(rs, was, w)
    ensures Lookup(rs, a) == if w.Holds(a) then Some(w.At(a)) else Lookup(was, a)
  {
  }

  /** Ranges `v[..n]` have been dealt with: `p` is final, `m` is the new data with what it has absorbed. */
  ghost predicate Merging(p: seq<Range>, m: Range, v: seq<Range>, n: nat, w: Range)
    requires n <= |v|
  {
    && Canonical(p) && m.bytes != [] && (p != [] ==> p[|p| - 1].End() < m.start)
    && (p != [] && n < |v| ==> p[|p| - 1].End() < v[n].start)
    && m.start <= w.start && w.End() <= m.End()
    && Overwritten(p + [m], v[..n], w)
  }

  lemma LookupBefore(v: seq<Range>, n: nat, a: int)
    requires Canonical(v) && n < |v| && a >= v[n].start
    ensures Lookup(v[..n], a) == None
  {
    forall i | 0 <= i < n
      ensures !v[..n][i].Holds(a)
    {
      assert v[i].End() < v[n].start;
    }
    LookupNone(v[..n], a);
  }

  lemma LookupAfter(v: seq<Range>, n: nat, a: int)
    requires Canonical(v) && n < |v| && a < v[n].start
    ensures Lookup(v[n..], a) == None
  {
    forall i | 0 <= i < |v[n..]|
      ensures !v[n..][i].Holds(a)
    {
      assert i > 0 ==> v[n].End() < v[n + i].start;
    }
    LookupNone(v[n..], a);
  }

  lemma LookupPrefixStep(v: seq<Range>, n: nat, a: int)
    requires n < |v|
    ensures Lookup(v[..n + 1], a) == if v[n].Holds(a) then Some(v[n].At(a)) else Lookup(v[..n], a)
  {
    assert v[..n + 1] == v[..n] + [v[n]];
    LookupSnoc(v[..n], v[n], a);
  }

  /** The next range lies before the new data and is kept. */
  lemma MergeSkip(p: seq<Range>, m: Range, v: seq<Range>, n: nat, w: Range)
    requires Canonical(v) && n < |v| && Merging(p, m, v, n, w)
    requires v[n].End() < m.start
    ensures Merging(p + [v[n]], m, v, n + 1, w)
  {
    var t := v[n];
    forall a: int
      ensures Lookup(p + [t] + [m], a) == if w.Holds(a) then Some(w.At(a)) else Lookup(v[..n + 1], a)
    {
      LookupSnoc(p + [t], m, a);
      LookupSnoc(p, t, a);
      LookupSnoc(p, m, a);
      LookupPrefixStep(v, n, a);
      OverwrittenAt(p + [m], v[..n], w, a);
      if t.Holds(a) { LookupBefore(v, n, a); }
    }
  }

  /** The next range touches the new data and is absorbed. */
  lemma MergeJoin(p: seq<Range>, m: Range, v: seq<Range>, n: nat, w: Range)
    requires Canonical(v) && n < |v| && Merging(p, m, v, n, w)
    requires Touch(m, v[n])
    ensures Merging(p, Joined(m, v[n]), v, n + 1, w)
  {
    var t, j := v[n], Joined(m, v[n]);
    forall a: int
      ensures Lookup(p + [j], a) == if w.Holds(a) then Some(w.At(a)) else Lookup(v[..n + 1], a)
    {
      JoinedAt(m, t, a);
      LookupSnoc(p, j, a);
      LookupSnoc(p, m, a);
      LookupPrefixStep(v, n, a);
      OverwrittenAt(p + [m], v[..n], w, a);
      if t.Holds(a) { LookupBefore(v, n, a); }
    }
  }

  lemma {:induction false} LookupConcat(p: seq<Range>, q: seq<Range>, a: int)
    ensures Lookup(p + q, a) == if Lookup(q, a).Some? then Lookup(q, a) else Lookup(p, a)
  {
    if q == [] {
      assert p + q == p;
    } else {
      var n := |q| - 1;
      LookupConcat(p, q[..n], a);
      assert p + q == p + q[..n] + [q[n]];
      LookupSnoc(p + q[..n], q[n], a);
    }
  }

  lemma CanonicalConcat(p: seq<Range>, q: seq<Range>)
    requires Canonical(p) && Canonical(q)
    requires p != [] && q != [] ==> p[|p| - 1].End() < q[0].start
    ensures Canonical(p + q)
  {
    var s, c := p + q, |p|;
    forall i, j | 0 <= i < j < |s|
      ensures s[i].End() < s[j].start
    {
      if j < c {
        assert s[i] == p[i] && s[j] == p[j];
      } else if i >= c {
        assert s[i] == q[i - c] && s[j] == q[j - c];
      } else {
        assert s[i] == p[i] && s[j] == q[j - c];
        assert i < c - 1 ==> p[i].End() < p[c - 1].start;
        assert j > c ==> q[0].End() < q[j - c].start;
      }
    }
  }

  lemma FinishOverwritten(p: seq<Range>, m: Range, v: seq<Range>, n: nat, w: Range, a: int)
    requires Canonical(v) && n <= |v| && Merging(p, m, v, n, w)
    requires n < |v| ==> m.End() < v[n].start
    ensures Lookup(p + [m] + v[n..], a) == if w.Holds(a) then Some(w.At(a)) else Lookup(v, a)
  {
    LookupConcat(p + [m], v[n..], a);
    LookupConcat(v[..n], v[n..], a);
    assert v == v[..n] + v[n..];
    OverwrittenAt(p + [m], v[..n], w, a);
    if w.Holds(a) && n < |v| {
      LookupAfter(v, n, a);
    }
  }

  /** No further range is reached: the rest is kept as it is. */
  lemma MergeFinish(p: seq<Range>, m: Range, v: seq<Range>, n: nat, w: Range)
    requires Canonical(v) && n <= |v| && Merging(p, m, v, n, w)
    requires n < |v| ==> m.End() < v[n].start
    ensures Canonical(p + [m] + v[n..]) && Overwritten(p + [m] + v[n..], v, w)
  {
    CanonicalConcat(p, [m]);
    CanonicalConcat(p + [m], v[n..]);
    forall a: int
      ensures Lookup(p + [m] + v[n..], a) == if w.Holds(a) then Some(w.At(a)) else Lookup(v, a)
    {
      FinishOverwritten(p, m, v, n, w, a);
    }
  }

  /** What the new data overlaps it overlaps with its own bytes, not with bytes it has absorbed. */
  lemma MergeConflict(p: seq<Range>, m: Range, v: seq<Range>, n: nat, w: Range)
    requires Canonical(v) && n < |v| && Merging(p, m, v, n, w)
    requires Meet(m, v[n])
    ensures Meet(v[n], w)
  {
    var a := if m.start > v[n].start then m.start else v[n].start;
    LookupBefore(v, n, a);
    LookupSnoc(p, m, a);
    OverwrittenAt(p + [m], v[..n], w, a);
  }

  /** New data that meets the end of the next range has absorbed nothing on its left. */
  lemma MergeFresh(p: seq<Range>, m: Range, v: seq<Range>, n: nat, w: Range)
    requires Canonical(v) && n < |v| && Merging(p, m, v, n, w)
    requires m.start == v[n].End() && m.End() == w.End()
    requires v[n].bytes != []
    ensures m == w
  {
    forall a: int | m.Holds(a)
      ensures w.Holds(a) && m.At(a) == w.At(a)
    {
      LookupSnoc(p, m, a);
      LookupBefore(v, n, a);
      OverwrittenAt(p + [m], v[..n], w, a);
    }
    SameEnd(m, w);
  }

  lemma SameEnd(m: Range, w: Range)
    requires m.bytes != [] && m.End() == w.End()
    requires forall a: int | m.Holds(a) :: w.Holds(a) && m.At(a) == w.At(a)
    requires w.start >= m.start
    ensures m == w
  {
    assert m.Holds(m.start);
    assert m.start == w.start && |m.bytes| == |w.bytes|;
    forall k | 0 <= k < |m.bytes|
      ensures m.bytes[k] == w.bytes[k]
    {
      var a := m.start + k;
      assert m.Holds(a) && m.At(a) == m.bytes[k] && w.At(a) == w.bytes[k];
    }
  }

  /** A new range meets the list exactly when one of its addresses is stored already. */
  lemma MeetsStored(v: seq<Range>, w: Range)
    requires Canonical(v) && w.bytes != []
    ensures MeetsAny(v, w) ==> exists a: int :: w.Holds(a) && Lookup(v, a).Some?
    ensures !MeetsAny(v, w) ==> forall a: int | w.Holds(a) :: Lookup(v, a) == None
  {
    if MeetsAny(v, w) {
      var i :| 0 <= i < |v| && Meet(v[i], w);
      var a := if v[i].start > w.start then v[i].start else w.start;
      assert w.Holds(a) && v[i].Holds(a);
      LookupAt(v, i, a);
    } else {
      forall a: int | w.Holds(a)
        ensures Lookup(v, a) == None
      {
        forall i | 0 <= i < |v|
          ensures !v[i].Holds(a)
        {
          assert !Meet(v[i], w);
        }
        LookupNone(v, a);
      }
    }
  }

  /** `rs` is `was` with all of `top` written over it. */
  ghost predicate Overlaid(rs: seq<Range>, was: seq<Range>, top: seq<Range>) {
    forall a: int :: Lookup(rs, a) == if Lookup(top, a).Some? then Lookup(top, a) else Lookup(was, a)
  }

  lemma OverlaidStep(rs: seq<Range>, rs': seq<Range>, was: seq<Range>, top: seq<Range>, n: nat)
    requires n < |top| && Overlaid(rs, was, top[..n]) && Overwritten(rs', rs, top[n])
    ensures Overlaid(rs', was, top[..n + 1])
  {
    forall a: int
      ensures Lookup(rs', a) == if Lookup(top[..n + 1], a).Some? then Lookup(top[..n + 1], a) else Lookup(was, a)
    {
      LookupPrefixStep(top, n, a);
      OverwrittenAt(rs', rs, top[n], a);
    }
  }

  /** While ranges of `top` are written one by one, the next meets the result only where it meets the original. */
  lemma OverlaidMeets(rs: seq<Range>, was: seq<Range>, top: seq<Range>, n: nat)
    requires Canonical(rs) && Canonical(was) && Canonical(top) && n < |top|
    requires Overlaid(rs, was, top[..n])
    ensures MeetsAny(rs, top[n]) <==> MeetsAny(was, top[n])
  {
    MeetsStored(rs, top[n]);
    MeetsStored(was, top[n]);
    forall a: int | top[n].Holds(a)
      ensures Lookup(rs, a) == Lookup(was, a)
    {
      LookupBefore(top, n, a);
    }
  }

  // ---- Deleting -----------------------------------------------------------------------------

  /** `rs` is `was` without the addresses of `[start, end)`. */
  ghost predicate Removed(rs: seq<Range>, was: seq<Range>, start: int, end: int) {
    forall a: int :: Lookup(rs, a) == if start <= a < end then None else Lookup(was, a)
  }

  /** Ranges `v[..n]` have been cut, leaving `p`. */
  ghost predicate Cutting(p: seq<Range>, v: seq<Range>, n: nat, start: int, end: int)
    requires n <= |v|
  {
    && Canonical(p) && Removed(p, v[..n], start, end)
    && (p != [] && n < |v| ==> p[|p| - 1].End() < v[n].start)
  }

  /** The part of a range before the cut, if any. */
  function CutLeft(t: Range, start: int): (r: seq<Range>)
    ensures |r| <= 1
  {
    if start > t.start then [Range(t.start, t.bytes[..Min(start, t.End()) - t.start])] else []
  }

  /** The part of a range after the cut, if any. */
  function CutRight(t: Range, end: int): (r: seq<Range>)
    ensures |r| <= 1
  {
    if end < t.End() then
      var from := if end > t.start then end else t.start;
      [Range(from, t.bytes[from - t.start..])]
    else []
  }

  /** What remains of a range when `[start, end)` is cut out. */
  function CutOut(t: Range, start: int, end: int): seq<Range>
  {
    CutLeft(t, start) + CutRight(t, end)
  }

  lemma CutOutLookup(t: Range, start: int, end: int, a: int)
    requires start < end
    ensures Lookup(CutOut(t, start, end), a) == if t.Holds(a) && !(start <= a < end) then Some(t.At(a)) else None
  {
    LookupConcat(CutLeft(t, start), CutRight(t, end), a);
    LookupOne(CutLeft(t, start), a);
    LookupOne(CutRight(t, end), a);
  }

  lemma CutOutCanonical(t: Range, start: int, end: int)
    requires t.bytes != [] && start < end
    ensures Canonical(CutOut(t, start, end))
    ensures forall r | r in CutOut(t, start, end) :: t.start <= r.start && r.End() <= t.End()
  {
    CanonicalConcat(CutLeft(t, start), CutRight(t, end));
  }

  lemma LookupOne(rs: seq<Range>, a: int)
    requires |rs| <= 1
    ensures Lookup(rs, a) == if rs != [] && rs[0].Holds(a) then Some(rs[0].At(a)) else None
  {
  }

  /** `c` holds what remains of `t`. */
  ghost predicate IsCut(c: seq<Range>, t: Range, start: int, end: int) {
    && Canonical(c)
    && (c != [] ==> t.start <= c[0].start && c[|c| - 1].End() <= t.End())
    && forall a: int :: Lookup(c, a) == if t.Holds(a) && !(start <= a < end) then Some(t.At(a)) else None
  }

  lemma CutOutIsCut(t: Range, start: int, end: int)
    requires t.bytes != [] && start < end
    ensures IsCut(CutOut(t, start, end), t, start, end)
  {
    var c := CutOut(t, start, end);
    CutOutCanonical(t, start, end);
    assert c != [] ==> c[0] in c && c[|c| - 1] in c;
    forall a: int
      ensures Lookup(c, a) == if t.Holds(a) && !(start <= a < end) then Some(t.At(a)) else None
    {
      CutOutLookup(t, start, end, a);
    }
  }

  lemma CutStep(p: seq<Range>, v: seq<Range>, n: nat, c: seq<Range>, start: int, end: int)
    requires Canonical(v) && n < |v| && start < end && Cutting(p, v, n, start, end)
    requires IsCut(c, v[n], start, end)
    ensures Cutting(p + c, v, n + 1, start, end)
  {
    var t := v[n];
    CanonicalConcat(p, c);
    forall a: int
      ensures Lookup(p + c, a) == if start <= a < end then None else Lookup(v[..n + 1], a)
    {
      LookupConcat(p, c, a);
      LookupPrefixStep(v, n, a);
      assert Lookup(c, a) == if t.Holds(a) && !(start <= a < end) then Some(t.At(a)) else None;
      assert Lookup(p, a) == if start <= a < end then None else Lookup(v[..n], a);
      if t.Holds(a) { LookupBefore(v, n, a); }
    }
  }

  lemma CutFinish(p: seq<Range>, v: seq<Range>, n: nat, start: int, end: int)
    requires Canonical(v) && n <= |v| && Cutting(p, v, n, start, end)
    requires n < |v| ==> end <= v[n].start
    ensures Canonical(p + v[n..]) && Removed(p + v[n..], v, start, end)
  {
    CanonicalConcat(p, v[n..]);
    forall a: int
      ensures Lookup(p + v[n..], a) == if start <= a < end then None else Lookup(v, a)
    {
      LookupConcat(p, v[n..], a);
      LookupConcat(v[..n], v[n..], a);
      assert v == v[..n] + v[n..];
      assert Lookup(p, a) == if start <= a < end then None else Lookup(v[..n], a);
      if start <= a < end && n < |v| {
        LookupAfter(v, n, a);
      }
    }
  }
}
