/**
 Sorted lists of half-open byte extents, as kept by the range tracker
 (internal/buffer/ranges.go) and by the dirty list of a cached block
 (internal/buffer/block.go). A list stands for a set of offsets; every
 operation is specified by what it does to that set.
 */
module Extents {

  datatype Extent = Extent(off: int, end: int)

  predicate Within(x: int, lo: int, hi: int) {
    lo <= x < hi
  }

  /** The offsets of [lo, hi). */
  function Span(lo: int, hi: int): set<int> {
    set x | lo <= x < hi && Within(x, lo, hi)
  }

  /** The set of offsets a list of extents stands for. */
  ghost function Bytes(rs: seq<Extent>): set<int> {
    if rs == [] then {}
    else Bytes(rs[..|rs| - 1]) + Span(rs[|rs| - 1].off, rs[|rs| - 1].end)
  }

  /** Sorted, disjoint, non-empty and non-adjacent extents. */
  ghost predicate Canonical(rs: seq<Extent>) {
    && (forall i :: 0 <= i < |rs| ==> rs[i].off < rs[i].end)
    && (forall i, j :: 0 <= i < j < |rs| ==> rs[i].end < rs[j].off)
  }

  lemma {:induction false} SpanCardinality(lo: int, hi: int)
    ensures |Span(lo, hi)| == if lo < hi then hi - lo else 0
    decreases hi - lo
  {
    if lo < hi {
      SpanCardinality(lo, hi - 1);
      assert Span(lo, hi) == Span(lo, hi - 1) + {hi - 1};
    } else {
      assert Span(lo, hi) == {};
    }
  }

  lemma {:induction false} BytesConcat(a: seq<Extent>, b: seq<Extent>)
    ensures Bytes(a + b) == Bytes(a) + Bytes(b)
  {
    if b == [] {
      assert a + b == a;
    } else {
      var n := |b| - 1;
      BytesConcat(a, b[..n]);
      assert (a + b)[..|a + b| - 1] == a + b[..n];
    }
  }

  lemma BytesSingle(e: Extent)
    ensures Bytes([e]) == Span(e.off, e.end)
  {
    assert Bytes([e][..0]) == {};
  }

  /** An offset is in the set exactly when one of the extents covers it. */
  lemma {:induction false} BytesMember(rs: seq<Extent>, x: int)
    ensures x in Bytes(rs) <==> exists i :: 0 <= i < |rs| && Within(x, rs[i].off, rs[i].end)
  {
    if rs != [] {
      var n := |rs| - 1;
      BytesMember(rs[..n], x);
      if x in Bytes(rs[..n]) {
        var i :| 0 <= i < n && Within(x, rs[..n][i].off, rs[..n][i].end);
        assert Within(x, rs[i].off, rs[i].end);
      } else if Within(x, rs[n].off, rs[n].end) {
        assert x in Bytes(rs);
      } else {
        forall i | 0 <= i < |rs|
          ensures !Within(x, rs[i].off, rs[i].end)
        {
          assert i < n ==> rs[..n][i] == rs[i];
        }
      }
    }
  }

  ghost predicate Below(s: set<int>, x: int) {
    forall z :: z in s ==> z < x
  }

  ghost predicate Above(s: set<int>, x: int) {
    forall z :: z in s ==> x <= z
  }

  lemma BytesLast(rs: seq<Extent>)
    requires rs != []
    ensures Bytes(rs) == Bytes(rs[..|rs| - 1]) + Span(rs[|rs| - 1].off, rs[|rs| - 1].end)
  {
  }

  lemma BytesEmpty()
    ensures Bytes([]) == {}
  {
  }

  lemma {:induction false} PrefixBelow(rs: seq<Extent>, i: nat, x: int)
    requires Canonical(rs) && i <= |rs| && (i > 0 ==> rs[i - 1].end <= x)
    ensures Below(Bytes(rs[..i]), x)
  {
    if i > 0 {
      BytesLast(rs[..i]);
      assert rs[..i][..i - 1] == rs[..i - 1];
      PrefixBelow(rs, i - 1, x);
    }
  }

  lemma {:induction false} SuffixAbove(rs: seq<Extent>, i: nat, x: int)
    requires Canonical(rs) && i <= |rs| && (i < |rs| ==> x <= rs[i].off)
    ensures Above(Bytes(rs[i..]), x)
    decreases |rs| - i
  {
    if i < |rs| {
      hide Bytes;
      assert rs[i..] == [rs[i]] + rs[i + 1..];
      BytesConcat([rs[i]], rs[i + 1..]);
      BytesSingle(rs[i]);
      SuffixAbove(rs, i + 1, x);
    }
  }

  lemma BytesTake(rs: seq<Extent>, i: nat)
    requires i < |rs|
    ensures Bytes(rs[..i + 1]) == Bytes(rs[..i]) + Span(rs[i].off, rs[i].end)
  {
    hide Bytes;
    assert rs[..i + 1][..i] == rs[..i];
    BytesLast(rs[..i + 1]);
  }

  lemma BytesDrop(rs: seq<Extent>, i: nat)
    requires i < |rs|
    ensures Bytes(rs[i..]) == Span(rs[i].off, rs[i].end) + Bytes(rs[i + 1..])
  {
    hide Bytes;
    assert rs[i..] == [rs[i]] + rs[i + 1..];
    BytesConcat([rs[i]], rs[i + 1..]);
    BytesSingle(rs[i]);
  }

  lemma BytesHalves(rs: seq<Extent>, i: nat)
    requires i <= |rs|
    ensures Bytes(rs) == Bytes(rs[..i]) + Bytes(rs[i..])
  {
    hide Bytes;
    assert rs == rs[..i] + rs[i..];
    BytesConcat(rs[..i], rs[i..]);
  }

  /** A canonical list taken apart at i: what is below, at and above that extent. */
  lemma BytesSplit(rs: seq<Extent>, i: nat)
    requires Canonical(rs) && i < |rs|
    ensures rs[i].off < rs[i].end
    ensures Bytes(rs) == Bytes(rs[..i]) + Span(rs[i].off, rs[i].end) + Bytes(rs[i + 1..])
    ensures Bytes(rs[..i + 1]) == Bytes(rs[..i]) + Span(rs[i].off, rs[i].end)
    ensures Bytes(rs[i..]) == Span(rs[i].off, rs[i].end) + Bytes(rs[i + 1..])
    ensures Below(Bytes(rs[..i]), rs[i].off - 1)
    ensures Above(Bytes(rs[i + 1..]), rs[i].end + 1)
  {
    hide Bytes;
    BytesTake(rs, i);
    BytesDrop(rs, i);
    BytesHalves(rs, i);
    PrefixBelow(rs, i, rs[i].off - 1);
    SuffixAbove(rs, i + 1, rs[i].end + 1);
  }

  /** A canonical list cut at i, when everything before i ends by x and the rest starts from y. */
  lemma BytesCut(rs: seq<Extent>, i: nat, x: int, y: int)
    requires Canonical(rs) && i <= |rs|
    requires i > 0 ==> rs[i - 1].end <= x
    requires i < |rs| ==> y <= rs[i].off
    ensures Bytes(rs) == Bytes(rs[..i]) + Bytes(rs[i..])
    ensures Below(Bytes(rs[..i]), x)
    ensures Above(Bytes(rs[i..]), y)
  {
    hide Bytes;
    BytesHalves(rs, i);
    PrefixBelow(rs, i, x);
    SuffixAbove(rs, i, y);
  }

  /** A canonical list is determined by its set: there is one normal form. */
  lemma {:induction false} CanonicalUnique(a: seq<Extent>, b: seq<Extent>)
    requires Canonical(a) && Canonical(b) && Bytes(a) == Bytes(b)
    ensures a == b
    decreases |a|
  {
    hide Bytes;
    BytesEmpty();
    if a == [] || b == [] {
      FirstByte(a);
      FirstByte(b);
    } else {
      BytesSplit(a, 0);
      BytesSplit(b, 0);
      FirstExtentLeq(a, b);
      FirstExtentLeq(b, a);
      assert Bytes(a[1..]) == Bytes(a) - Span(a[0].off, a[0].end);
      assert Bytes(b[1..]) == Bytes(b) - Span(b[0].off, b[0].end);
      CanonicalUnique(a[1..], b[1..]);
      assert a == [a[0]] + a[1..] && b == [b[0]] + b[1..];
    }
  }

  lemma FirstByte(a: seq<Extent>)
    requires Canonical(a)
    ensures a != [] ==> a[0].off in Bytes(a)
  {
    if a != [] {
      BytesSplit(a, 0);
    }
  }

  lemma FirstExtentLeq(a: seq<Extent>, b: seq<Extent>)
    requires Canonical(a) && Canonical(b) && Bytes(a) == Bytes(b)
    requires a != [] && b != []
    ensures b[0].off <= a[0].off && (a[0].off == b[0].off ==> a[0].end <= b[0].end)
  {
    hide Bytes;
    BytesEmpty();
    BytesSplit(a, 0);
    BytesSplit(b, 0);
    assert a[0].off in Bytes(b);
    // The byte just past b[0] is in no extent of b.
    assert b[0].end !in Bytes(b);
  }

  /** Replacing the run was[i..j) by one extent over the same bytes plus `added`. */
  lemma MergedBytes(was: seq<Extent>, i: nat, j: nat, merged: Extent, added: set<int>)
    requires i <= j <= |was|
    requires Span(merged.off, merged.end) == added + Bytes(was[i..j])
    ensures Bytes(was[..i] + [merged] + was[j..]) == Bytes(was) + added
  {
    hide Bytes;
    BytesConcat(was[..i] + [merged], was[j..]);
    BytesConcat(was[..i], [merged]);
    BytesSingle(merged);
    assert was == was[..i] + (was[i..j] + was[j..]);
    BytesConcat(was[..i], was[i..j] + was[j..]);
    BytesConcat(was[i..j], was[j..]);
  }

  lemma InsertedBytes(rs: seq<Extent>, i: nat, e: Extent)
    requires i <= |rs|
    ensures Bytes(rs[..i] + [e] + rs[i..]) == Bytes(rs) + Span(e.off, e.end)
  {
    hide Bytes;
    BytesEmpty();
    assert rs[i..i] == [];
    MergedBytes(rs, i, i, e, Span(e.off, e.end));
  }

  /** The first merge: [off, end) touches the extent at i. */
  lemma MergeFirst(was: seq<Extent>, i: nat, off: int, end: int, merged: Extent)
    requires i < |was| && was[i].off < was[i].end && off < end
    requires off <= was[i].end && was[i].off <= end
    requires merged.off == (if off < was[i].off then off else was[i].off)
    requires merged.end == (if end > was[i].end then end else was[i].end)
    ensures Span(merged.off, merged.end) == Span(off, end) + Bytes(was[i..i + 1])
  {
    hide Bytes;
    assert was[i..i + 1] == [was[i]];
    BytesSingle(was[i]);
  }

  /** Growing a merged extent over the next one it touches. */
  lemma MergeStep(was: seq<Extent>, i: nat, j: nat, cur: Extent, added: set<int>)
    requires Canonical(was) && i < j < |was|
    requires cur.off <= was[i].off && cur.off < cur.end && was[j].off <= cur.end
    requires Span(cur.off, cur.end) == added + Bytes(was[i..j])
    ensures
      var e := if was[j].end > cur.end then was[j].end else cur.end;
      Span(cur.off, e) == added + Bytes(was[i..j + 1])
  {
    assert was[i..j + 1][..j - i] == was[i..j];
    assert cur.off <= was[i].off < was[j].off;
    var e := if was[j].end > cur.end then was[j].end else cur.end;
    assert Span(cur.off, e) == Span(cur.off, cur.end) + Span(was[j].off, was[j].end);
  }

  /** One step of a removal walk: the extent at i is replaced by what is left of it. */
  lemma TrimStep(was: seq<Extent>, m: nat, rs: seq<Extent>, i: nat, left: seq<Extent>, gone: set<int>)
    requires Canonical(was) && m < |was| && i <= |rs|
    requires Bytes(rs[..i]) == Bytes(was[..m]) - gone
    requires Bytes(left) == Span(was[m].off, was[m].end) - gone
    ensures Bytes(rs[..i] + left) == Bytes(was[..m + 1]) - gone
  {
    BytesConcat(rs[..i], left);
    assert was[..m + 1][..m] == was[..m];
  }

  lemma ClipUnion(p: set<int>, e: set<int>, w: set<int>)
    requires p !! e
    ensures (p + e) * w == p * w + e * w
    ensures |(p + e) * w| == |p * w| + |e * w|
  {
    assert (p + e) * w == p * w + e * w;
    assert p * w !! e * w;
  }

  lemma ClipSpans(off: int, end: int, lo: int, hi: int)
    ensures Span(off, end) * Span(lo, hi) == Span(if off > lo then off else lo, if end < hi then end else hi)
  {
  }

  /** The next extent of a list, clipped to the window [lo, hi). */
  function Clip(e: Extent, lo: int, hi: int): Extent {
    Extent(if e.off > lo then e.off else lo, if e.end < hi then e.end else hi)
  }

  lemma ClipStep(rs: seq<Extent>, i: nat, lo: int, hi: int)
    requires Canonical(rs) && i < |rs| && lo < rs[i].end && rs[i].off < hi && lo < hi
    ensures
      var e := Clip(rs[i], lo, hi);
      && e.off < e.end
      && Bytes(rs[..i + 1]) * Span(lo, hi) == Bytes(rs[..i]) * Span(lo, hi) + Span(e.off, e.end)
  {
    hide Bytes;
    BytesTake(rs, i);
    ClipSpans(rs[i].off, rs[i].end, lo, hi);
  }

  lemma CoverageStep(rs: seq<Extent>, i: nat, lo: int, hi: int)
    requires Canonical(rs) && i < |rs| && lo < rs[i].end && rs[i].off < hi && lo < hi
    ensures
      var e := Clip(rs[i], lo, hi);
      |Bytes(rs[..i + 1]) * Span(lo, hi)| == |Bytes(rs[..i]) * Span(lo, hi)| + (e.end - e.off)
  {
    hide Bytes;
    var e := Clip(rs[i], lo, hi);
    BytesTake(rs, i);
    PrefixBelow(rs, i, rs[i].off);
    ClipSpans(rs[i].off, rs[i].end, lo, hi);
    SpanCardinality(e.off, e.end);
    ClipUnion(Bytes(rs[..i]), Span(rs[i].off, rs[i].end), Span(lo, hi));
  }

  /** From the first extent at or past hi on, a list has nothing in [lo, hi). */
  lemma RestIsAbove(rs: seq<Extent>, i: nat, lo: int, hi: int)
    requires Canonical(rs) && i <= |rs| && (i < |rs| ==> hi <= rs[i].off)
    ensures Bytes(rs) * Span(lo, hi) == Bytes(rs[..i]) * Span(lo, hi)
    ensures Bytes(rs) - Span(lo, hi) == (Bytes(rs[..i]) - Span(lo, hi)) + Bytes(rs[i..])
  {
    hide Bytes;
    BytesHalves(rs, i);
    SuffixAbove(rs, i, hi);
  }

  lemma InsertCount(s: set<int>, off: int, end: int)
    requires off < end
    ensures |s * Span(off, end)| <= end - off
    ensures |s + Span(off, end)| == |s| + (end - off) - |s * Span(off, end)|
  {
    SpanCardinality(off, end);
    var w := Span(off, end);
    assert |w| == |w - s| + |s * w|;
  }

  lemma RemoveCount(s: set<int>, w: set<int>)
    ensures |s - w| == |s| - |s * w|
  {
    assert |s| == |s - w| + |s * w|;
  }

  lemma MergedCanonical(was: seq<Extent>, i: nat, j: nat, merged: Extent)
    requires Canonical(was) && i <= j <= |was| && merged.off < merged.end
    requires i > 0 ==> was[i - 1].end < merged.off
    requires j < |was| ==> merged.end < was[j].off
    ensures Canonical(was[..i] + [merged] + was[j..])
  {
    var r := was[..i] + [merged] + was[j..];
    forall a, b | 0 <= a < b < |r|
      ensures r[a].end < r[b].off
    {
      assert r[a] == if a < i then was[a] else if a == i then merged else was[j + (a - i - 1)];
      assert r[b] == if b < i then was[b] else if b == i then merged else was[j + (b - i - 1)];
    }
  }

  /**
   The merge both insert and addDirty run once they have found, at i, the first
   extent that [off, end) overlaps or touches: widen it, then swallow every
   following extent it has come to reach.
   */
  method MergeAt(was: seq<Extent>, i: nat, off: int, end: int) returns (rs: seq<Extent>)
    requires Canonical(was) && i < |was| && off < end
    requires off <= was[i].end && was[i].off <= end
    requires i > 0 ==> was[i - 1].end < off
    ensures Canonical(rs) && Bytes(rs) == Bytes(was) + Span(off, end)
  {
    hide Bytes;
    var cur := was[i];
    if off < cur.off {
      cur := cur.(off := off);
    }
    if end > cur.end {
      cur := cur.(end := end);
    }
    var j := i + 1;
    MergeFirst(was, i, off, end, cur);
    while j < |was| && was[j].off <= cur.end
      invariant i < j <= |was|
      invariant cur.off <= was[i].off && cur.off < cur.end
      invariant i == 0 || was[i - 1].end < cur.off
      invariant Span(cur.off, cur.end) == Span(off, end) + Bytes(was[i..j])
    {
      MergeStep(was, i, j, cur, Span(off, end));
      if was[j].end > cur.end {
        cur := cur.(end := was[j].end);
      }
      j := j + 1;
    }
    MergedBytes(was, i, j, cur, Span(off, end));
    MergedCanonical(was, i, j, cur);
    rs := was[..i] + [cur] + was[j..];
  }

  lemma CutCanonical(rs: seq<Extent>, i: nat, left: seq<Extent>)
    requires Canonical(rs) && i < |rs| && Canonical(left)
    requires forall k :: 0 <= k < |left| ==> rs[i].off <= left[k].off && left[k].end <= rs[i].end
    ensures Canonical(rs[..i] + left + rs[i + 1..])
  {
    var r := rs[..i] + left + rs[i + 1..];
    var n := |left|;
    forall a, b | 0 <= a < b < |r|
      ensures r[a].end < r[b].off
    {
      assert r[a] == if a < i then rs[a] else if a < i + n then left[a - i] else rs[a - n + 1];
      assert r[b] == if b < i then rs[b] else if b < i + n then left[b - i] else rs[b - n + 1];
    }
  }

  lemma AppendCanonical(rs: seq<Extent>, e: Extent)
    requires Canonical(rs) && e.off < e.end
    requires rs != [] ==> rs[|rs| - 1].end < e.off
    ensures Canonical(rs + [e]) && Bytes(rs + [e]) == Bytes(rs) + Span(e.off, e.end)
  {
    hide Bytes;
    BytesConcat(rs, [e]);
    BytesSingle(e);
  }

  /** What is left of one extent after [lo, hi) is taken out. */
  function Remainder(e: Extent, lo: int, hi: int): (left: seq<Extent>)
    requires e.off < e.end && lo < hi
    ensures Canonical(left)
    ensures forall k :: 0 <= k < |left| ==> e.off <= left[k].off && left[k].end <= e.end
    ensures Bytes(left) == Span(e.off, e.end) - Span(lo, hi)
  {
    var head := Extent(e.off, lo);
    var tail := Extent(hi, e.end);
    BytesSingle(e);
    BytesSingle(head);
    BytesSingle(tail);
    BytesConcat([head], [tail]);
    assert [head] + [tail] == [head, tail];
    if e.end <= lo || hi <= e.off then [e]
    else if e.off >= lo && e.end <= hi then []
    else if e.off < lo && e.end > hi then [head, tail]
    else if e.off < lo then [head]
    else [tail]
  }

  /** One step of the removal walk: rs[i] gives way to its remainder. */
  ghost function CutOne(rs: seq<Extent>, i: nat, lo: int, hi: int): seq<Extent>
    requires i < |rs| && rs[i].off < rs[i].end && lo < hi
  {
    rs[..i] + Remainder(rs[i], lo, hi) + rs[i + 1..]
  }

  lemma CutStep(was: seq<Extent>, m: nat, rs: seq<Extent>, i: nat, lo: int, hi: int)
    requires Canonical(was) && Canonical(rs) && i < |rs| && m < |was| && lo < hi
    requires rs[i..] == was[m..] && Bytes(rs[..i]) == Bytes(was[..m]) - Span(lo, hi)
    ensures rs[i] == was[m] && rs[i].off < rs[i].end
    ensures
      var next := CutOne(rs, i, lo, hi);
      var n := i + |Remainder(rs[i], lo, hi)|;
      && Canonical(next)
      && next[n..] == was[m + 1..]
      && Bytes(next[..n]) == Bytes(was[..m + 1]) - Span(lo, hi)
  {
    hide Bytes;
    assert rs[i] == rs[i..][0] == was[m];
    assert rs[i + 1..] == rs[i..][1..] == was[m + 1..];
    var left := Remainder(rs[i], lo, hi);
    TrimStep(was, m, rs, i, left, Span(lo, hi));
    CutCanonical(rs, i, left);
    var next := CutOne(rs, i, lo, hi);
    assert next[..i + |left|] == rs[..i] + left && next[i + |left|..] == rs[i + 1..];
  }

  lemma CutDone(was: seq<Extent>, m: nat, rs: seq<Extent>, i: nat, lo: int, hi: int)
    requires Canonical(was) && i <= |rs| && m <= |was|
    requires rs[i..] == was[m..] && Bytes(rs[..i]) == Bytes(was[..m]) - Span(lo, hi)
    requires m < |was| ==> hi <= was[m].off
    ensures Bytes(rs) == Bytes(was) - Span(lo, hi)
  {
    hide Bytes;
    BytesHalves(rs, i);
    RestIsAbove(was, m, lo, hi);
  }

  lemma NoneCanonical()
    ensures Canonical([])
  {
  }

  lemma Gap(rs: seq<Extent>, i: nat)
    requires Canonical(rs) && i < |rs|
    ensures rs[i].off < rs[i].end && (i > 0 ==> rs[i - 1].end < rs[i].off)
  {
  }

  /**
   The walk both remove and removeDirty run: from position `start` on, drop,
   split or trim every extent that meets [lo, hi).
   */
  method CutFrom(was: seq<Extent>, start: nat, lo: int, hi: int) returns (rs: seq<Extent>)
    requires Canonical(was) && start <= |was| && lo < hi
    requires start > 0 ==> was[start - 1].end <= lo
    ensures Canonical(rs) && Bytes(rs) == Bytes(was) - Span(lo, hi)
  {
    hide Bytes, Canonical;
    rs := was;
    var i: nat := start;
    ghost var m: nat := start;
    PrefixBelow(was, start, lo);
    while i < |rs| && rs[i].off < hi
      invariant i <= |rs| && m <= |was| && rs[i..] == was[m..]
      invariant Canonical(rs)
      invariant Bytes(rs[..i]) == Bytes(was[..m]) - Span(lo, hi)
      decreases |was| - m
    {
      var ext := rs[i];
      CutStep(was, m, rs, i, lo, hi);
      ghost var next := CutOne(rs, i, lo, hi);
      if ext.end <= lo {
        assert next == rs;
        i := i + 1;
      } else if ext.off >= lo && ext.end <= hi {
        rs := rs[..i] + rs[i + 1..];
        assert next == rs;
      } else if ext.off < lo && ext.end > hi {
        rs := rs[..i] + [Extent(ext.off, lo)] + [Extent(hi, ext.end)] + rs[i + 1..];
        assert next == rs;
        if m + 1 < |was| {
          Gap(was, m + 1);
        }
        CutDone(was, m + 1, rs, i + 2, lo, hi);
        return;
      } else if ext.off < lo {
        rs := rs[i := Extent(ext.off, lo)];
        assert next == rs;
        i := i + 1;
      } else {
        rs := rs[i := Extent(hi, ext.end)];
        assert next == rs;
        i := i + 1;
      }
      m := m + 1;
    }
    assert i < |rs| ==> was[m] == rs[i..][0];
    CutDone(was, m, rs, i, lo, hi);
  }

  /** internal/buffer/ranges.go: the range tracker. */
  class RangeSet {
    var rs: seq<Extent>

    constructor ()
      ensures rs == [] && Valid() && Contents() == {}
    {
      rs := [];
    }

    ghost predicate Valid()
      reads this
    {
      Canonical(rs)
    }

    ghost function Contents(): set<int>
      reads this
    {
      Bytes(rs)
    }

    /** sort.Search for the first extent that ends after x. */
    method SearchEnd(x: int) returns (i: nat)
      requires Valid()
      ensures i <= |rs|
      ensures forall k :: 0 <= k < i ==> rs[k].end <= x
      ensures forall k :: i <= k < |rs| ==> x < rs[k].end
    {
      i := 0;
      var j := |rs|;
      while i < j
        invariant 0 <= i <= j <= |rs|
        invariant forall k :: 0 <= k < i ==> rs[k].end <= x
        invariant forall k :: j <= k < |rs| ==> x < rs[k].end
      {
        var h := (i + j) / 2;
        if rs[h].end > x {
          j := h;
        } else {
          i := h + 1;
        }
      }
    }

    method Coverage(lo: int, hi: int) returns (c: nat)
      requires Valid()
      ensures c == |Contents() * Span(lo, hi)|
    {
      hide Bytes;
      if hi <= lo {
        assert Contents() * Span(lo, hi) == {};
        return 0;
      }
      c := 0;
      var i := SearchEnd(lo);
      PrefixBelow(rs, i, lo);
      assert Bytes(rs[..i]) * Span(lo, hi) == {};
      while i < |rs| && rs[i].off < hi
        invariant i <= |rs|
        invariant forall k :: i <= k < |rs| ==> lo < rs[k].end
        invariant c == |Bytes(rs[..i]) * Span(lo, hi)|
      {
        var a := if rs[i].off > lo then rs[i].off else lo;
        var b := if rs[i].end < hi then rs[i].end else hi;
        CoverageStep(rs, i, lo, hi);
        if b > a {
          c := c + (b - a);
        }
        i := i + 1;
      }
      RestIsAbove(rs, i, lo, hi);
    }

    /** insert: union with [off, off+length); the result is the growth of the set. */
    method Insert(off: int, length: int) returns (added: nat)
      requires Valid()
      modifies this
      ensures Valid()
      ensures Contents() == old(Contents()) + Span(off, off + length)
      ensures added == |Contents()| - |old(Contents())|
    {
      hide Bytes;
      BytesEmpty();
      if length <= 0 {
        assert Span(off, off + length) == {};
        return 0;
      }
      var end := off + length;
      var covered := Coverage(off, end);
      InsertCount(Contents(), off, end);
      added := length - covered;
      var i := SearchEnd(off - 1);
      if i == |rs| || end < rs[i].off {
        InsertedBytes(rs, i, Extent(off, end));
        MergedCanonical(rs, i, i, Extent(off, end));
        rs := rs[..i] + [Extent(off, end)] + rs[i..];
        return;
      }
      rs := MergeAt(rs, i, off, end);
    }

    /** remove: difference with [off, off+length); the result is the shrinkage of the set. */
    method Remove(off: int, length: int) returns (removed: nat)
      requires Valid()
      modifies this
      ensures Valid()
      ensures Contents() == old(Contents()) - Span(off, off + length)
      ensures removed == |old(Contents())| - |Contents()|
    {
      hide Bytes;
      BytesEmpty();
      if length <= 0 {
        assert Span(off, off + length) == {};
        return 0;
      }
      var end := off + length;
      removed := Coverage(off, end);
      RemoveCount(Contents(), Span(off, end));
      var i := SearchEnd(off);
      rs := CutFrom(rs, i, off, end);
    }

    /** present: is all of [off, off+length) in the set? */
    method Present(off: int, length: int) returns (b: bool)
      requires Valid()
      ensures b <==> Span(off, off + length) <= Contents()
    {
      hide Bytes;
      BytesEmpty();
      if length <= 0 {
        return true;
      }
      var end := off + length;
      var i := SearchEnd(off);
      b := i < |rs| && rs[i].off <= off && rs[i].end >= end;
      if i < |rs| && rs[i].off <= off {
        BytesSplit(rs, i);
        // The byte just past this extent is missing.
        assert rs[i].end !in Contents();
        assert rs[i].end < end ==> rs[i].end in Span(off, end);
      } else {
        BytesCut(rs, i, off, off + 1);
        assert off in Span(off, end) && off !in Contents();
      }
    }

    /** anyPresent: is some byte of [off, off+length) in the set? */
    method AnyPresent(off: int, length: int) returns (b: bool)
      requires Valid()
      ensures b <==> Span(off, off + length) * Contents() != {}
    {
      hide Bytes;
      BytesEmpty();
      if length <= 0 {
        assert Span(off, off + length) == {};
        return false;
      }
      var end := off + length;
      var i := SearchEnd(off);
      b := i < |rs| && rs[i].off < end;
      if b {
        BytesSplit(rs, i);
        ghost var x := if rs[i].off > off then rs[i].off else off;
        assert x in Span(off, end) * Contents();
      } else {
        BytesCut(rs, i, off, end);
        assert Span(off, end) * Contents() == {};
      }
    }

    /** presentRanges: the present part of [off, off+length), in canonical form. */
    method PresentRanges(off: int, length: int) returns (out: seq<Extent>)
      requires Valid()
      ensures Canonical(out)
      ensures Bytes(out) == Contents() * Span(off, off + length)
    {
      hide Bytes, Canonical;
      BytesEmpty();
      out := [];
      NoneCanonical();
      if length <= 0 {
        assert Span(off, off + length) == {};
        return;
      }
      var end := off + length;
      var i := SearchEnd(off);
      PrefixBelow(rs, i, off);
      assert Bytes(rs[..i]) * Span(off, end) == {};
      while i < |rs| && rs[i].off < end
        invariant i <= |rs| && Canonical(out)
        invariant forall k :: i <= k < |rs| ==> off < rs[k].end
        invariant Bytes(out) == Bytes(rs[..i]) * Span(off, end)
        invariant out != [] ==> i > 0 && out[|out| - 1].end <= rs[i - 1].end
      {
        var lo := if rs[i].off > off then rs[i].off else off;
        var hi := if rs[i].end < end then rs[i].end else end;
        ClipStep(rs, i, off, end);
        Gap(rs, i);
        if hi > lo {
          AppendCanonical(out, Extent(lo, hi));
          out := out + [Extent(lo, hi)];
        }
        i := i + 1;
      }
      RestIsAbove(rs, i, off, end);
    }

    method TotalSize() returns (total: nat)
      requires Valid()
      ensures total == |Contents()|
    {
      hide Bytes;
      BytesEmpty();
      total := 0;
      for i := 0 to |rs|
        invariant total == |Bytes(rs[..i])|
      {
        BytesSplit(rs, i);
        SpanCardinality(rs[i].off, rs[i].end);
        assert Bytes(rs[..i]) !! Span(rs[i].off, rs[i].end);
        total := total + (rs[i].end - rs[i].off);
      }
      assert rs[..|rs|] == rs;
    }
  }
}
