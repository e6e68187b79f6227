/** Every locked section keeps the buffer's invariants and its meaning as a partial map. */
module BufferSteps {
  import opened Extents
  import opened BufferSpec

  lemma {:induction false} KeepMembers(q: seq<int>, ks: set<int>)
    ensures forall o :: o in Keep(q, ks) <==> o in q && o in ks
    ensures NoDup(q) ==> NoDup(Keep(q, ks))
  {
    if q != [] {
      KeepMembers(q[1..], ks);
      assert q == [q[0]] + q[1..];
      if NoDup(q) {
        assert forall j :: 0 < j < |q| ==> q[j] == q[1..][j - 1];
        assert q[0] !in q[1..];
      }
    }
  }

  lemma {:induction false} KeepAll(q: seq<int>, ks: set<int>)
    requires forall i :: 0 <= i < |q| ==> q[i] in ks
    ensures Keep(q, ks) == q
  {
    if q != [] {
      KeepAll(q[1..], ks);
      assert Keep(q, ks) == [q[0]] + q[1..];
    }
  }

  // ---- eviction ------------------------------------------------------------

  lemma DropKeeps(s: State, o: int, m: map<int, byte>, loose: set<int>)
    requires Inv(s, m, loose)
    requires o in s.blocks && s.blocks[o].dirty == {}
    ensures Inv(Drop(s, o), m, loose)
    ensures forall x :: IsDirty(Drop(s, o), x) <==> IsDirty(s, x)
  {
    hide AlignDown, Aligned, FullyPresent;
    var t := Drop(s, o);
    KeepMembers(s.lru, s.blocks.Keys - {o});
    assert FastExact(t);
    forall x
      ensures IsDirty(t, x) <==> IsDirty(s, x)
      ensures Agrees(t, m, loose, x)
    {
      assert Agrees(s, m, loose, x);
    }
  }

  // ---- flushing ------------------------------------------------------------

  lemma PatchAt(f: seq<byte>, off: int, src: seq<byte>, x: int)
    requires off >= 0
    ensures |f| <= |Patch(f, off, src)|
    ensures src != [] ==> off + |src| <= |Patch(f, off, src)|
    ensures off <= x < off + |src| ==> Patch(f, off, src)[x] == src[x - off]
    ensures 0 <= x < |f| && !(off <= x < off + |src|) ==> Patch(f, off, src)[x] == f[x]
  {
  }

  lemma FlushExtentKeeps(s: State, o: int, lo: int, hi: int, noted: bool, m: map<int, byte>, loose: set<int>)
    requires Inv(s, m, loose)
    requires o in s.blocks && 0 <= lo < hi <= BLOCK && Span(lo, hi) <= s.blocks[o].dirty
    ensures
      var t := FlushExtent(s, o, lo, hi, noted);
      && Inv(t, m, loose)
      && |s.file| <= |t.file|
      && (forall x :: 0 <= x < |s.file| && !IsDirty(s, x) ==> t.file[x] == s.file[x])
      && (forall x :: IsDirty(t, x) <==> IsDirty(s, x))
  {
    var t := FlushExtent(s, o, lo, hi, noted);
    hide Patch, FullyPresent;
    PatchAt(s.file, o + lo, s.blocks[o].data[lo..hi], 0);
    forall x
      ensures 0 <= x < |s.file| && !IsDirty(s, x) ==> t.file[x] == s.file[x]
      ensures IsDirty(t, x) <==> IsDirty(s, x)
      ensures Agrees(t, m, loose, x)
    {
      assert Agrees(s, m, loose, x);
      PatchAt(s.file, o + lo, s.blocks[o].data[lo..hi], x);
      if o + lo <= x < o + hi {
        AlignUnique(o, x);
        assert x - o in Span(lo, hi);
      }
      hide AlignDown, Aligned;
    }
  }

  /** Clearing the dirty list is sound once every dirty byte is on disk. */
  ghost predicate Flushed(s: State, o: int) {
    forall x :: AlignDown(x) == o && IsDirty(s, x) ==>
      x in s.onDisk && 0 <= x < |s.file| && s.file[x] == ByteAt(s, x)
  }

  lemma ClearDirtyKeeps(s: State, o: int, m: map<int, byte>, loose: set<int>)
    requires Inv(s, m, loose)
    requires o in s.blocks && Flushed(s, o)
    ensures Inv(ClearDirty(s, o), m, loose)
    ensures forall x :: IsDirty(ClearDirty(s, o), x) <==> IsDirty(s, x) && AlignDown(x) != o
  {
    hide AlignDown, Aligned, FullyPresent;
    var t := ClearDirty(s, o);
    forall x
      ensures IsDirty(t, x) <==> IsDirty(s, x) && AlignDown(x) != o
      ensures Agrees(t, m, loose, x)
    {
      assert Agrees(s, m, loose, x);
    }
  }

  // ---- loading and writing -------------------------------------------------

  lemma LoadKeeps(s: State, o: int, junk: seq<byte>, m: map<int, byte>, loose: set<int>)
    requires Inv(s, m, loose)
    requires o !in s.blocks && Aligned(o) && 0 <= o && |junk| == BLOCK
    ensures Inv(Load(s, o, junk), m, loose)
    ensures forall x :: IsDirty(Load(s, o, junk), x) <==> IsDirty(s, x)
  {
    hide Aligned, AlignDown, FullyPresent;
    var t := Load(s, o, junk);
    assert LruExact(t);
    assert FastExact(t);
    forall x
      ensures IsDirty(t, x) <==> IsDirty(s, x)
      ensures Agrees(t, m, loose, x)
    {
      assert Agrees(s, m, loose, x);
      if AlignDown(x) == o && x in s.ranges {
        assert x in Span(o, o + BLOCK) * s.ranges;
      }
    }
  }

  /** The partial map after src is written at off. */
  ghost function Written(m: map<int, byte>, off: int, src: seq<byte>): map<int, byte> {
    map x | x in m.Keys + Span(off, off + |src|) ::
      if off <= x < off + |src| then src[x - off] else m[x]
  }

  ghost function Erased(m: map<int, byte>, off: int, end: int): map<int, byte> {
    m - Span(off, end)
  }

  lemma WriteIntoKeeps(s: State, o: int, lo: int, src: seq<byte>, m: map<int, byte>, loose: set<int>)
    requires Inv(s, m, loose)
    requires o in s.blocks && 0 <= lo < lo + |src| <= BLOCK
    ensures
      var t := WriteInto(s, o, lo, src);
      var w := Span(o + lo, o + lo + |src|);
      && Inv(t, Written(m, o + lo, src), loose - w)
      && (forall x :: IsDirty(t, x) <==> IsDirty(s, x) || x in w)
  {
    var t := WriteInto(s, o, lo, src);
    var w := Span(o + lo, o + lo + |src|);
    WriteIntoTidy(s, o, lo, src);
    WriteIntoSize(s, o, lo, src);
    hide Shaped, Tidy, FastExact, LruExact, Patch, Keep, ToFront, AlignDown, Aligned, FullyPresent;
    forall x
      ensures IsDirty(t, x) <==> IsDirty(s, x) || x in w
      ensures Agrees(t, Written(m, o + lo, src), loose - w, x)
    {
      assert Agrees(s, m, loose, x);
      if o + lo <= x < o + lo + |src| {
        AlignUnique(o, x);
      }
      PatchAt(s.blocks[o].data, lo, src, x - AlignDown(x));
    }
  }

  lemma WriteIntoSize(s: State, o: int, lo: int, src: seq<byte>)
    requires Tidy(s) && o in s.blocks && 0 <= lo < lo + |src| <= BLOCK
    ensures Aligned(o) && |s.blocks[o].data| == BLOCK
    ensures |Patch(s.blocks[o].data, lo, src)| == BLOCK
  {
  }

  lemma WriteIntoTidy(s: State, o: int, lo: int, src: seq<byte>)
    requires Tidy(s) && o in s.blocks && 0 <= lo < lo + |src| <= BLOCK
    ensures Tidy(WriteInto(s, o, lo, src))
  {
    hide Aligned, FullyPresent;
    var t := WriteInto(s, o, lo, src);
    WriteIntoSize(s, o, lo, src);
    hide Patch;
    KeepMembers(s.lru, (set x | x in s.lru) - {o});
    OthersStayPartial(s, t, o);
  }

  /** Adding bytes of one block leaves every other slot exact. */
  lemma OthersStayPartial(s: State, t: State, o: int)
    requires FastExact(s) && Aligned(o)
    requires s.ranges <= t.ranges && t.ranges <= s.ranges + Span(o, o + BLOCK)
    requires forall p :: p != o ==> (p in t.blocks <==> p in s.blocks)
    requires t.slots == s.slots
    ensures forall p :: p != o ==>
      (p in s.fast <==> Aligned(p) && HasSlot(t, p) && p !in t.blocks && FullyPresent(t.ranges, p))
  {
    forall p | p != o && Aligned(p)
      ensures FullyPresent(t.ranges, p) <==> FullyPresent(s.ranges, p)
    {
      if p < o {
        AlignApart(p, o);
      } else {
        AlignApart(o, p);
      }
      assert Span(p, p + BLOCK) !! Span(o, o + BLOCK);
    }
  }

  /** Publishing a write-through whose bytes are already in the file. */
  lemma PublishKeeps(s: State, o: int, lo: int, src: seq<byte>, m: map<int, byte>, loose: set<int>)
    requires Inv(s, m, loose)
    requires Aligned(o) && 0 <= o && 0 <= lo < lo + |src| <= BLOCK
    requires InFile(s.file, o + lo, src)
    ensures
      var t := Publish(s, o, lo, src);
      var w := Span(o + lo, o + lo + |src|);
      && Inv(t, Written(m, o + lo, src), loose - w)
      && (forall x :: IsDirty(t, x) ==> IsDirty(s, x) || x in w)
  {
    hide Inv, Publish, WriteInto, Written, IsDirty, Aligned;
    if o in s.blocks {
      // onDisk runs ahead of ranges by these bytes until the block is written.
      var off, end := o + lo, o + lo + |src|;
      WriteIntoKeeps(s, o, lo, src, m, loose);
      PublishParts(s, o, lo, src);
      AheadKeeps(WriteInto(s, o, lo, src), off, end, Written(m, off, src), loose - Span(off, end));
    } else {
      PublishAbsent(s, o, lo, src, m, loose);
    }
  }

  /** What publishing changes, and that it leaves the file alone. */
  lemma PublishParts(s: State, o: int, lo: int, src: seq<byte>)
    requires 0 <= lo
    ensures
      var t, w := Publish(s, o, lo, src), Span(o + lo, o + lo + |src|);
      && t.file == s.file && t.ranges == s.ranges + w
      && (o in s.blocks ==>
          var a := WriteInto(s, o, lo, src);
          t == a.(onDisk := a.onDisk + w) && a.file == s.file)
  {
    hide Patch, Keep, FullyPresent;
  }

  /** Dirty bytes that the file already has may be noted as on disk. */
  lemma AheadKeeps(a: State, off: int, end: int, m: map<int, byte>, loose: set<int>)
    requires Inv(a, m, loose) && 0 <= off <= end <= |a.file|
    requires forall x :: off <= x < end ==> IsDirty(a, x)
    ensures Inv(a.(onDisk := a.onDisk + Span(off, end)), m, loose)
    ensures forall x :: IsDirty(a.(onDisk := a.onDisk + Span(off, end)), x) <==> IsDirty(a, x)
  {
    var t := a.(onDisk := a.onDisk + Span(off, end));
    hide Aligned, AlignDown, FullyPresent;
    assert Tidy(t);
    forall x
      ensures IsDirty(t, x) <==> IsDirty(a, x)
      ensures Agrees(t, m, loose, x)
    {
      assert Agrees(a, m, loose, x);
    }
  }

  lemma PublishAbsent(s: State, o: int, lo: int, src: seq<byte>, m: map<int, byte>, loose: set<int>)
    requires Inv(s, m, loose) && o !in s.blocks
    requires Aligned(o) && 0 <= o && 0 <= lo < lo + |src| <= BLOCK
    requires InFile(s.file, o + lo, src)
    ensures
      var t := Publish(s, o, lo, src);
      var w := Span(o + lo, o + lo + |src|);
      && Inv(t, Written(m, o + lo, src), loose - w)
      && (forall x :: IsDirty(t, x) <==> IsDirty(s, x))
  {
    var w := Span(o + lo, o + lo + |src|);
    var t := Publish(s, o, lo, src);
    var m' := Written(m, o + lo, src);
    var loose' := loose - w;
    PublishTidy(s, o, lo, src);
    hide Tidy, Patch, Keep, FullyPresent;
    forall x
      ensures IsDirty(t, x) <==> IsDirty(s, x)
      ensures Agrees(t, m', loose', x)
    {
      assert Agrees(s, m, loose, x);
      if x in w {
        AlignUnique(o, x);
      }
      hide AlignDown, Aligned;
    }
  }

  lemma PublishTidy(s: State, o: int, lo: int, src: seq<byte>)
    requires Tidy(s) && o !in s.blocks
    requires Aligned(o) && 0 <= lo < lo + |src| <= BLOCK
    ensures Tidy(Publish(s, o, lo, src))
  {
    hide Aligned, FullyPresent;
    OthersStayPartial(s, Publish(s, o, lo, src), o);
  }

  /** The file holds src at off. */
  ghost predicate InFile(f: seq<byte>, off: int, src: seq<byte>) {
    && 0 <= off && off + |src| <= |f|
    && forall x :: off <= x < off + |src| ==> f[x] == src[x - off]
  }

  /** A pwrite into loose bytes changes nothing anyone may rely on. */
  lemma PatchKeeps(s: State, off: int, part: seq<byte>, m: map<int, byte>, loose: set<int>)
    requires Inv(s, m, loose) && 0 <= off && Span(off, off + |part|) <= loose
    ensures Inv(s.(file := Patch(s.file, off, part)), m, loose)
    ensures forall x :: IsDirty(s.(file := Patch(s.file, off, part)), x) <==> IsDirty(s, x)
    ensures InFile(Patch(s.file, off, part), off, part) || part == []
  {
    hide Aligned, FullyPresent, Patch;
    var t := s.(file := Patch(s.file, off, part));
    PatchAt(s.file, off, part, 0);
    forall x
      ensures IsDirty(t, x) <==> IsDirty(s, x)
      ensures Agrees(t, m, loose, x)
    {
      assert Agrees(s, m, loose, x);
      PatchAt(s.file, off, part, x);
      hide AlignDown;
    }
    forall x | off <= x < off + |part|
      ensures x < |t.file| && t.file[x] == part[x - off]
    {
      PatchAt(s.file, off, part, x);
    }
  }

  lemma WrittenTwice(m: map<int, byte>, off: int, a: seq<byte>, b: seq<byte>)
    ensures Written(Written(m, off, a), off + |a|, b) == Written(m, off, a + b)
  {
  }

  // ---- discarding ----------------------------------------------------------

  lemma DiscardKeeps(s: State, off: int, end: int, m: map<int, byte>, loose: set<int>)
    requires Inv(s, m, loose) && off < end
    ensures
      var t := Discard(s, off, end);
      && Inv(t, Erased(m, off, end), loose - Span(off, end))
      && (forall x :: IsDirty(t, x) <==> IsDirty(s, x) && x !in Span(off, end))
  {
    var t := Discard(s, off, end);
    KeepMembers(s.lru, t.blocks.Keys);
    DiscardFast(s, off, end);
    assert Shaped(t) && LruExact(t);
    hide Shaped, FastExact, LruExact, Keep;
    forall x
      ensures IsDirty(t, x) <==> IsDirty(s, x) && x !in Span(off, end)
      ensures Agrees(t, Erased(m, off, end), loose - Span(off, end), x)
    {
      assert Agrees(s, m, loose, x);
      DiscardByte(s, off, end, x);
      hide Discard, AlignDown, Aligned;
      assert t.ranges == s.ranges - Span(off, end) && t.onDisk == s.onDisk - Span(off, end) && t.file == s.file;
    }
  }

  /** A surviving byte keeps its home: its block is not doomed. */
  lemma DiscardByte(s: State, off: int, end: int, x: int)
    requires Tidy(s) && off < end
    requires IsDirty(s, x) ==> x in s.ranges
    ensures
      var t := Discard(s, off, end);
      && t.ranges == s.ranges - Span(off, end) && t.onDisk == s.onDisk - Span(off, end) && t.file == s.file
      && (IsDirty(t, x) <==> IsDirty(s, x) && x !in Span(off, end))
      && (x in t.ranges ==> ByteAt(t, x) == ByteAt(s, x))
  {
    var t := Discard(s, off, end);
    var o := AlignDown(x);
    if o in s.blocks && x in s.ranges - Span(off, end) {
      assert x in Span(o, o + BLOCK) * (s.ranges - Span(off, end));
      assert !Doomed(s, o, off, end);
      assert t.blocks[o].data == s.blocks[o].data;
    }
  }

  lemma DiscardFast(s: State, off: int, end: int)
    requires FastExact(s) && Shaped(s) && off < end
    ensures FastExact(Discard(s, off, end))
  {
    var t := Discard(s, off, end);
    hide Keep, AlignDown, Aligned;
    forall o
      ensures o in t.fast <==> Aligned(o) && HasSlot(t, o) && o !in t.blocks && FullyPresent(t.ranges, o)
    {
      if Aligned(o) && !Touched(o, off, end) {
        UntouchedApart(o, off, end);
        assert FullyPresent(t.ranges, o) <==> FullyPresent(s.ranges, o);
        assert !Doomed(s, o, off, end);
      }
    }
  }

  lemma UntouchedApart(o: int, off: int, end: int)
    requires Aligned(o) && !Touched(o, off, end) && off < end
    ensures Span(o, o + BLOCK) !! Span(off, end)
    ensures o != AlignDown(off) && o != AlignDown(end - 1) && !(off <= o && o + BLOCK <= end)
  {
    if o < AlignDown(off) {
      AlignApart(o, AlignDown(off));
    }
    if AlignDown(end - 1) < AlignDown(off) {
      AlignApart(AlignDown(end - 1), AlignDown(off));
    }
  }

  /** Whatever ends up in a hole where nothing is present, nothing changes for readers. */
  lemma PunchKeeps(s: State, g: seq<byte>, off: int, end: int, m: map<int, byte>, loose: set<int>)
    requires Inv(s, m, loose)
    requires Punched(s.file, g, off, end) && Span(off, end) !! s.ranges
    ensures Inv(s.(file := g), m, loose)
    ensures forall x :: IsDirty(s.(file := g), x) <==> IsDirty(s, x)
  {
    hide AlignDown, Aligned, FullyPresent;
    var t := s.(file := g);
    forall x
      ensures IsDirty(t, x) <==> IsDirty(s, x)
      ensures Agrees(t, m, loose, x)
    {
      assert Agrees(s, m, loose, x);
      assert x in s.ranges ==> x !in Span(off, end);
    }
  }
}
