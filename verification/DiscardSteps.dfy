/** discard's walk over the blocks, step by step, adds up to BufferSpec.Discard. */
module DiscardSteps {
  import opened Extents
  import opened BufferSpec
  import opened BufferSteps

  ghost predicate Inside(o: int, off: int, end: int) {
    off <= o && o + BLOCK <= end
  }

  ghost function TrimmedBlk(b: Blk, o: int, off: int, end: int): Blk {
    b.(dirty := b.dirty - Span(off - o, end - o))
  }

  /** What the first loop does at block offset o: drop the block, trim its dirty bytes, or nothing. */
  ghost function TrimVisit(s: State, o: int, off: int, end: int): State {
    if o !in s.blocks then s
    else if Inside(o, off, end) then Drop(s, o)
    else s.(blocks := s.blocks[o := TrimmedBlk(s.blocks[o], o, off, end)])
  }

  /** The cache once every block below b has been visited. */
  ghost function TrimmedTo(s: State, off: int, end: int, b: int): map<int, Blk> {
    map o | o in s.blocks && !(o < b && Inside(o, off, end)) ::
      if o < b then TrimmedBlk(s.blocks[o], o, off, end) else s.blocks[o]
  }

  /** Slots the discard does not touch are as they were; every fast slot is a real one. */
  ghost predicate FastOutside(s: State, t: State, off: int, end: int) {
    && t.slots == s.slots
    && (forall o :: o in t.fast ==> Aligned(o) && HasSlot(s, o))
    && (forall o :: !Touched(o, off, end) ==> (o in t.fast <==> o in s.fast))
  }

  /** t is s with every block below b visited. */
  ghost predicate Visited(s: State, t: State, off: int, end: int, b: int) {
    && t.blocks == TrimmedTo(s, off, end, b)
    && t.lru == Keep(s.lru, t.blocks.Keys)
    && t.ranges == s.ranges && t.onDisk == s.onDisk && t.file == s.file
    && FastOutside(s, t, off, end)
  }

  ghost predicate Ready(s: State) {
    Shaped(s) && LruExact(s) && forall o :: o in s.fast ==> Aligned(o) && HasSlot(s, o)
  }

  lemma {:induction false} KeepTwice(q: seq<int>, a: set<int>, b: set<int>)
    requires b <= a
    ensures Keep(Keep(q, a), b) == Keep(q, b)
  {
    if q != [] {
      KeepTwice(q[1..], a, b);
      var rest := Keep(q[1..], a);
      if q[0] in a {
        assert Keep(q, a)[1..] == rest;
      } else {
        assert Keep(q, a) == rest && Keep(q, b) == Keep(q[1..], b);
      }
    }
  }

  /** A block that does not overlap [off, end) has nothing to trim. */
  lemma Apart(s: State, o: int, off: int, end: int)
    requires Shaped(s) && o in s.blocks && (o + BLOCK <= off || end <= o)
    ensures TrimmedBlk(s.blocks[o], o, off, end) == s.blocks[o]
  {
    var d := s.blocks[o].dirty;
    assert d - Span(off - o, end - o) == d;
  }

  lemma ShapedAt(s: State, o: int)
    requires Shaped(s) && o in s.blocks
    ensures Aligned(o)
  {
  }

  lemma ListedIsCached(s: State, o: int)
    requires Ready(s) && o in s.lru
    ensures o in s.blocks
  {
  }

  lemma VisitedNone(s: State, off: int, end: int)
    requires Ready(s) && off < end
    ensures Visited(s, s, off, end, AlignDown(off))
  {
    var b := AlignDown(off);
    assert b <= off && Aligned(b) && Shaped(s);
    hide AlignDown, Aligned, Shaped;
    forall o | o in s.blocks && o < b
      ensures !Inside(o, off, end) && TrimmedBlk(s.blocks[o], o, off, end) == s.blocks[o]
    {
      ShapedAt(s, o);
      AlignApart(o, b);
      Apart(s, o, off, end);
    }
    assert TrimmedTo(s, off, end, b).Keys == s.blocks.Keys;
    assert TrimmedTo(s, off, end, b) == s.blocks;
    forall i | 0 <= i < |s.lru|
      ensures s.lru[i] in s.blocks.Keys
    {
      ListedIsCached(s, s.lru[i]);
    }
    KeepAll(s.lru, s.blocks.Keys);
  }

  lemma VisitBlock(s: State, t: State, off: int, end: int, b: int)
    requires Ready(s) && off < end && Visited(s, t, off, end, b) && Touched(b, off, end)
    ensures Visited(s, TrimVisit(t, b, off, end), off, end, b + BLOCK)
  {
    hide AlignDown, Keep, FullyPresent;
    var u := TrimVisit(t, b, off, end);
    forall o | o in s.blocks
      ensures o < b + BLOCK <==> o < b || o == b
    {
      if b < o {
        AlignApart(b, o);
      }
    }
    hide Aligned;
    VisitBlocks(s, t, off, end, b);
    if b in t.blocks && Inside(b, off, end) {
      KeepTwice(s.lru, t.blocks.Keys, t.blocks.Keys - {b});
    }
    assert u.lru == Keep(s.lru, u.blocks.Keys);
    assert FastOutside(s, u, off, end);
  }

  lemma VisitBlocks(s: State, t: State, off: int, end: int, b: int)
    requires t.blocks == TrimmedTo(s, off, end, b)
    requires forall o :: o in s.blocks ==> (o < b + BLOCK <==> o < b || o == b)
    ensures
      var u := TrimVisit(t, b, off, end);
      && u.blocks == TrimmedTo(s, off, end, b + BLOCK)
      && u.blocks.Keys == (if b in t.blocks && Inside(b, off, end) then t.blocks.Keys - {b} else t.blocks.Keys)
  {
    var u := TrimVisit(t, b, off, end);
    var v := TrimmedTo(s, off, end, b + BLOCK);
    assert u.blocks.Keys == v.Keys;
    forall o | o in v
      ensures u.blocks[o] == v[o]
    {
      if o != b {
        assert o in t.blocks && t.blocks[o] == v[o];
      }
    }
  }

  /** The second loop's test at one edge block. */
  ghost function DropIfEmpty(s: State, o: int): State {
    if o in s.blocks && Span(o, o + BLOCK) * s.ranges == {} then Drop(s, o) else s
  }

  /** The last loop: recompute the slot of every block the discard touched. */
  ghost function MarkTouched(s: State, off: int, end: int): State {
    s.(fast := (set o | o in s.fast && !Touched(o, off, end))
               + (set o | o in Span(AlignDown(off), end) && Touched(o, off, end) && HasSlot(s, o)
                          && o !in s.blocks && Span(o, o + BLOCK) <= s.ranges))
  }

  /** The whole locked section after the first loop. */
  ghost function Settle(s: State, off: int, end: int): State {
    var t := s.(ranges := s.ranges - Span(off, end));
    var u := DropIfEmpty(DropIfEmpty(t, AlignDown(off)), AlignDown(end - 1));
    MarkTouched(u.(onDisk := u.onDisk - Span(off, end)), off, end)
  }

  ghost predicate SameBut(s: State, t: State, gone: set<int>) {
    && t.blocks == s.blocks - gone && t.lru == Keep(s.lru, s.blocks.Keys - gone)
    && t.ranges == s.ranges && t.onDisk == s.onDisk && t.file == s.file && t.slots == s.slots
  }

  /** Dropping the empty edges removes exactly the edge blocks with nothing present. */
  lemma EdgesDropped(t: State, a: int, b: int)
    requires LruExact(t)
    ensures
      var gone := set o | o in t.blocks && (o == a || o == b) && Span(o, o + BLOCK) * t.ranges == {};
      SameBut(t, DropIfEmpty(DropIfEmpty(t, a), b), gone)
  {
    hide AlignDown, Aligned, Keep, FullyPresent;
    var gone := set o | o in t.blocks && (o == a || o == b) && Span(o, o + BLOCK) * t.ranges == {};
    var u := DropIfEmpty(t, a);
    var ga := if a in gone then {a} else {};
    OneDropped(t, a, ga);
    KeepMembers(t.lru, t.blocks.Keys - ga);
    var v := DropIfEmpty(u, b);
    var gb := if b in gone - ga then {b} else {};
    assert gone == ga + gb;
    OneDropped(u, b, gb);
    assert u.blocks - gb == t.blocks - gone;
    assert (t.blocks.Keys - ga) - gb == t.blocks.Keys - gone;
    assert u.blocks.Keys == t.blocks.Keys - ga;
    KeepTwice(t.lru, t.blocks.Keys - ga, t.blocks.Keys - gone);
  }

  lemma OneDropped(t: State, o: int, gone: set<int>)
    requires LruExact(t)
    requires gone == if o in t.blocks && Span(o, o + BLOCK) * t.ranges == {} then {o} else {}
    ensures SameBut(t, DropIfEmpty(t, o), gone) && LruExact(DropIfEmpty(t, o))
  {
    hide Aligned, FullyPresent;
    KeepMembers(t.lru, t.blocks.Keys - gone);
    if gone == {} {
      assert t.blocks - gone == t.blocks && t.blocks.Keys - gone == t.blocks.Keys;
      forall i | 0 <= i < |t.lru|
        ensures t.lru[i] in t.blocks.Keys
      {
        assert t.lru[i] in t.lru;
      }
      KeepAll(t.lru, t.blocks.Keys);
    }
  }

  /** The locked section of discard, done in order, is the discard. */
  lemma SettleIsDiscard(s: State, t: State, off: int, end: int, b: int)
    requires Ready(s) && off < end && end <= b && Visited(s, t, off, end, b)
    ensures Settle(t, off, end) == Discard(s, off, end)
  {
    SettleCache(s, t, off, end, b);
    SettleFast(s, t, off, end, b);
    hide AlignDown, Aligned, TrimmedTo, Keep, DropIfEmpty, FastOutside, Doomed, Touched, MarkTouched;
  }

  /** The RAM cache after the discard: the blocks that remain, in their order. */
  lemma SettleCache(s: State, t: State, off: int, end: int, b: int)
    requires Ready(s) && off < end && end <= b && Visited(s, t, off, end, b)
    ensures
      var u := Settle(t, off, end);
      && u.blocks == Discard(s, off, end).blocks && u.lru == Discard(s, off, end).lru
      && u.ranges == t.ranges - Span(off, end) && u.onDisk == t.onDisk - Span(off, end)
      && u.file == t.file && u.slots == t.slots
  {
    var t1 := t.(ranges := t.ranges - Span(off, end));
    var a, z := AlignDown(off), AlignDown(end - 1);
    KeepMembers(s.lru, t.blocks.Keys);
    assert LruExact(t1);
    hide AlignDown, Aligned, TrimmedTo, Keep, DropIfEmpty, FastOutside, Doomed, Touched;
    EdgesDropped(t1, a, z);
    var gone := set o | o in t1.blocks && (o == a || o == z) && Span(o, o + BLOCK) * t1.ranges == {};
    DiscardedBlocks(s, t, off, end, b);
    assert Discard(s, off, end).blocks.Keys == t.blocks.Keys - gone;
    KeepTwice(s.lru, t.blocks.Keys, t.blocks.Keys - gone);
  }

  lemma SettleFast(s: State, t: State, off: int, end: int, b: int)
    requires Ready(s) && off < end && end <= b && Visited(s, t, off, end, b)
    requires Settle(t, off, end).blocks == Discard(s, off, end).blocks
    requires Settle(t, off, end).ranges == s.ranges - Span(off, end) && Settle(t, off, end).slots == s.slots
    ensures Settle(t, off, end).fast == Discard(s, off, end).fast
  {
    EdgesOutside(t.(ranges := t.ranges - Span(off, end)), AlignDown(off), AlignDown(end - 1), off, end);
    hide AlignDown, Aligned, TrimmedTo, Keep, DropIfEmpty, Doomed, Touched;
  }

  lemma DiscardedBlocks(s: State, t: State, off: int, end: int, b: int)
    requires Ready(s) && off < end && end <= b && t.blocks == TrimmedTo(s, off, end, b) && t.ranges == s.ranges
    ensures
      var a, z := AlignDown(off), AlignDown(end - 1);
      var ranges := t.ranges - Span(off, end);
      var gone := set o | o in t.blocks && (o == a || o == z) && Span(o, o + BLOCK) * ranges == {};
      t.blocks - gone == Discard(s, off, end).blocks
  {
    hide AlignDown, Aligned, Keep;
    var a, z := AlignDown(off), AlignDown(end - 1);
    var ranges := t.ranges - Span(off, end);
    var gone := set o | o in t.blocks && (o == a || o == z) && Span(o, o + BLOCK) * ranges == {};
    var d := Discard(s, off, end).blocks;
    forall o | o in s.blocks && b <= o
      ensures TrimmedBlk(s.blocks[o], o, off, end) == s.blocks[o] && !Inside(o, off, end)
    {
      Apart(s, o, off, end);
    }
    assert (t.blocks - gone).Keys == d.Keys;
    forall o | o in d
      ensures (t.blocks - gone)[o] == d[o]
    {
      assert t.blocks[o] == TrimmedBlk(s.blocks[o], o, off, end);
    }
  }

  /** Dropping an edge block moves no slot outside the discard. */
  lemma EdgesOutside(t: State, a: int, z: int, off: int, end: int)
    requires off < end && a == AlignDown(off) && z == AlignDown(end - 1)
    ensures
      var u := DropIfEmpty(DropIfEmpty(t, a), z);
      forall o :: !Touched(o, off, end) ==> (o in u.fast <==> o in t.fast)
  {
    assert Touched(a, off, end);
    assert a <= z by {
      if z < a {
        AlignApart(z, a);
      }
    }
    assert Touched(z, off, end);
  }
}
