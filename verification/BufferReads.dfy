/** What readers of a Buffer see, over every run and across a reopen. */
module BufferReads {
  import opened Extents
  import opened BufferSpec
  import opened BufferSteps
  import opened BufferRuns

  /** What a partial map answers for [off, off+n). */
  ghost function Lookup(m: map<int, byte>, off: int, n: nat): ReadResult {
    if Span(off, off + n) <= m.Keys
    then Data(seq(n, i requires 0 <= i < n => if off + i in m then m[off + i] else 0))
    else NotPresent
  }

  /** newBuffer: the file is cut or extended to TotalSize when one is given. */
  function Truncated(file: seq<byte>, total: nat): seq<byte> {
    if total == 0 then file
    else seq(total, i requires 0 <= i < total => if i < |file| then file[i] else 0)
  }

  function Slots(total: nat): nat {
    (total + BLOCK - 1) / BLOCK
  }

  /** newBuffer with the seeded ranges of a previous run. */
  ghost function Open(file: seq<byte>, total: nat, seeds: set<int>): State {
    State(map[], [], seeds, seeds, Truncated(file, total),
          (set o | o in Span(0, Slots(total) * BLOCK) && Aligned(o) && FullyPresent(seeds, o)),
          Slots(total))
  }

  ghost function OpenWorld(file: seq<byte>, total: nat, seeds: set<int>): World {
    var f := Truncated(file, total);
    World(Open(file, total, seeds), map[], {}, (map x | x in seeds :: if 0 <= x < |f| then f[x] else 0))
  }

  /** A new buffer is sound exactly when its seeds lie inside the file it ends up with. */
  lemma OpenSound(file: seq<byte>, total: nat, seeds: set<int>)
    ensures WInv(OpenWorld(file, total, seeds)) <==> seeds <= Span(0, |Truncated(file, total)|)
  {
    hide AlignDown, Aligned, FullyPresent;
    var w := OpenWorld(file, total, seeds);
    if seeds <= Span(0, |w.s.file|) {
      forall x
        ensures Agrees(w.s, w.m, Loose(w), x)
      {
      }
      assert Tidy(w.s);
    } else {
      var x :| x in seeds && x !in Span(0, |w.s.file|);
      assert !Agrees(w.s, w.m, Loose(w), x);
    }
  }

  /** The locked path answers from the partial map. */
  lemma LockedReadCorrect(s: State, m: map<int, byte>, loose: set<int>, off: int, n: nat)
    requires Inv(s, m, loose) && Span(off, off + n) !! loose
    ensures ReadLocked(s, off, n) == Lookup(m, off, n)
  {
    hide AlignDown, Aligned, Tidy, ByteAt;
    forall x
      ensures x in s.ranges <==> x in m
      ensures x in s.ranges ==> Serves(s, x)
      ensures x in s.ranges && x !in loose ==> ByteAt(s, x) == m[x]
    {
      assert Agrees(s, m, loose, x);
    }
    if Span(off, off + n) <= s.ranges {
      var served := seq(n, i requires 0 <= i < n => ByteAt(s, off + i));
      var held := seq(n, i requires 0 <= i < n => if off + i in m then m[off + i] else 0);
      forall i | 0 <= i < n
        ensures served[i] == held[i]
      {
        assert off + i in Span(off, off + n);
      }
      assert served == held;
    }
  }

  lemma FastByte(s: State, m: map<int, byte>, loose: set<int>, off: int, n: nat, x: int)
    requires Inv(s, m, loose) && AllFast(s, off, n) && off <= x < off + n
    ensures x in s.ranges && AlignDown(x) !in s.blocks && 0 <= x < |s.file| && ByteAt(s, x) == s.file[x]
  {
    hide AlignDown, Aligned;
    var o := AlignDown(x);
    assert x in Span(off, off + n) && o in s.fast && x in Span(o, o + BLOCK);
    assert Agrees(s, m, loose, x);
  }

  /** A block marked fast is served by the bare pread exactly as by the locked path. */
  lemma FastReadSame(s: State, m: map<int, byte>, loose: set<int>, off: int, n: nat)
    requires Inv(s, m, loose) && AllFast(s, off, n) && 0 <= off && 0 < n
    ensures ReadFast(s, off, n) == ReadLocked(s, off, n)
  {
    hide AlignDown, Aligned, ByteAt, Inv, AllFast;
    FastByte(s, m, loose, off, n, off + n - 1);
    forall x | x in Span(off, off + n)
      ensures x in s.ranges && Serves(s, x)
    {
      FastByte(s, m, loose, off, n, x);
    }
    var served := seq(n, i requires 0 <= i < n => ByteAt(s, off + i));
    forall i | 0 <= i < n
      ensures served[i] == s.file[off..off + n][i]
    {
      FastByte(s, m, loose, off, n, off + i);
    }
    assert served == s.file[off..off + n];
    assert forall x :: x in Span(off, off + n) ==> Serves(s, x);
  }

  /**
   Every run of writes, discards, flushes, evictions and punches: a read of bytes
   nobody is writing through, and whose last write-through did not fail, succeeds
   exactly when all of them are present and returns the bytes last written,
   whichever path each write took and whichever path serves the read.
   */
  lemma ReadsLastWritten(w: World, es: seq<Event>, z: World, off: int, n: nat)
    requires WInv(w) && Run(w, es, z)
    requires 0 <= off && 0 < n && Span(off, off + n) !! Loose(z)
    ensures Read(z.s, off, n) == Lookup(z.m, off, n)
  {
    hide WInv, Run, Loose, ReadFast, ReadLocked, Lookup, AllFast, Inv;
    RunKeeps(w, es, z);
    assert Inv(z.s, z.m, Loose(z)) by { WInvGives(z); }
    LockedReadCorrect(z.s, z.m, Loose(z), off, n);
    if AllFast(z.s, off, n) {
      FastReadSame(z.s, z.m, Loose(z), off, n);
    }
  }

  lemma WInvGives(w: World)
    requires WInv(w)
    ensures Inv(w.s, w.m, Loose(w))
  {
  }

  /** Bytes stay torn only because a pwrite failed. */
  lemma {:induction false} NoFailureNoTorn(w: World, es: seq<Event>, z: World)
    requires WInv(w) && Run(w, es, z) && w.torn == {}
    requires forall i :: 0 <= i < |es| ==> !es[i].PwriteFails?
    ensures z.torn == {}
    decreases |es|
  {
    if es != [] {
      StepKeeps(w, es[0]);
      assert Next(w, es[0]).torn == {};
      hide WInv, Enabled, Next;
      NoFailureNoTorn(Next(w, es[0]), es[1..], z);
    }
  }

  /** At every lock release: present is exactly on disk or dirty, and clean RAM equals the file. */
  lemma RepresentationsAgree(w: World, es: seq<Event>, z: World, x: int)
    requires WInv(w) && Run(w, es, z)
    ensures x in z.s.ranges <==> x in z.s.onDisk || IsDirty(z.s, x)
    ensures x in z.s.ranges && x !in Loose(z) && AlignDown(x) in z.s.blocks && !IsDirty(z.s, x)
      ==> 0 <= x < |z.s.file| && ByteAt(z.s, x) == z.s.file[x]
    ensures x in z.s.fast <==> Aligned(x) && HasSlot(z.s, x) && x !in z.s.blocks && FullyPresent(z.s.ranges, x)
    ensures NoDup(z.s.lru) && (x in z.s.lru <==> x in z.s.blocks)
  {
    RunKeeps(w, es, z);
    hide AlignDown, Aligned, FullyPresent, ByteAt;
    assert Agrees(z.s, z.m, Loose(z), x);
  }

  /** A discard that finds nothing of its range in the file leaves nothing of it there to punch. */
  lemma SkippedPunchLosesNothing(s: State, off: int, end: int, m: map<int, byte>, loose: set<int>)
    requires Inv(s, m, loose) && off < end && s.onDisk * Span(off, end) == {}
    ensures
      var t := Discard(s, off, end);
      && t.file == s.file && t.onDisk == s.onDisk
      && (forall x :: x in Span(off, end) ==> x !in t.ranges && !IsDirty(t, x))
      && (forall x :: x in m && x !in Span(off, end) && x !in loose ==> x in t.ranges && ByteAt(t, x) == m[x])
  {
    DiscardKeeps(s, off, end, m, loose);
    var t := Discard(s, off, end);
    forall x | x in s.onDisk
      ensures x !in Span(off, end)
    {
      assert x in Span(off, end) ==> x in s.onDisk * Span(off, end);
    }
    assert t.onDisk == s.onDisk;
    hide AlignDown, Aligned, Tidy, ByteAt;
    forall x
      ensures x in Span(off, end) ==> x !in t.ranges && !IsDirty(t, x)
      ensures x in m && x !in Span(off, end) && x !in loose ==> x in t.ranges && ByteAt(t, x) == m[x]
    {
      var m' := Erased(m, off, end);
      var loose' := loose - Span(off, end);
      assert Agrees(t, m', loose', x);
    }
  }

  /**
   Why a hole in flight must be kept clear: if a byte of a discarded range is written
   through again before the punch, the punch can take it although it is present.
   */
  lemma LatePunchErases(s: State, o: int, lo: int, src: seq<byte>, m: map<int, byte>, loose: set<int>,
                        off: int, end: int, x: int) returns (g: seq<byte>)
    requires Inv(s, m, loose) && Region(o, lo, src) && InFile(s.file, o + lo, src) && o !in s.blocks
    requires off <= x < end && o + lo <= x < o + lo + |src|
    ensures
      var t := Publish(s, o, lo, src);
      && x in t.ranges && Punched(t.file, g, off, end)
      && !Inv(t.(file := g), Written(m, o + lo, src), loose - Span(o + lo, o + lo + |src|))
  {
    var t := Publish(s, o, lo, src);
    g := s.file[x := if s.file[x] == 0 then 1 else 0];
    AlignUnique(o, x);
    hide AlignDown, Aligned, FullyPresent, Tidy;
    assert !Agrees(t.(file := g), Written(m, o + lo, src), loose - Span(o + lo, o + lo + |src|), x);
  }

  // ---- reopening -------------------------------------------------------------

  /** A quiet buffer after a successful Flush: nothing in flight, torn or dirty. */
  ghost predicate FlushedOut(w: World) {
    WInv(w) && w.ops == map[] && w.torn == {} && forall o :: o in w.s.blocks ==> w.s.blocks[o].dirty == {}
  }

  /** Reopening the file with the present ranges as InitialRanges answers every read the same. */
  ghost predicate ReopensSame(w: World, total: nat) {
    forall off, n: nat :: 0 <= off && 0 < n ==>
      Read(Open(w.s.file, total, w.s.ranges), off, n) == Read(w.s, off, n)
  }

  /**
   Reopening after a flush is faithful exactly when no present byte lies at or
   past the TotalSize given to the new buffer: newBuffer cuts the file there.
   */
  lemma ReopenFaithful(w: World, total: nat)
    requires FlushedOut(w)
    ensures ReopensSame(w, total) <==> (total == 0 || w.s.ranges <= Span(0, total))
  {
    if total == 0 || w.s.ranges <= Span(0, total) {
      ReopenSound(w, total);
      forall off, n: nat | 0 <= off && 0 < n
        ensures Read(Open(w.s.file, total, w.s.ranges), off, n) == Read(w.s, off, n)
      {
        var v := OpenWorld(w.s.file, total, w.s.ranges);
        QuietRead(w, off, n);
        QuietRead(v, off, n);
      }
    } else {
      ReopenLoses(w, total);
    }
  }

  lemma QuietRead(w: World, off: int, n: nat)
    requires WInv(w) && w.ops == map[] && w.torn == {} && 0 <= off && 0 < n
    ensures Read(w.s, off, n) == Lookup(w.m, off, n)
  {
    hide WInv, Read, Lookup;
    assert Run(w, [], w);
    assert Loose(w) == {};
    ReadsLastWritten(w, [], w, off, n);
  }

  lemma ReopenSound(w: World, total: nat)
    requires FlushedOut(w) && (total == 0 || w.s.ranges <= Span(0, total))
    ensures
      var v := OpenWorld(w.s.file, total, w.s.ranges);
      WInv(v) && v.m == w.m && v.ops == map[] && v.torn == {}
  {
    var v := OpenWorld(w.s.file, total, w.s.ranges);
    assert Loose(w) == {};
    hide AlignDown, Aligned, FullyPresent, Tidy;
    forall x
      ensures x in w.s.ranges <==> x in w.m
      ensures x in w.s.ranges ==> 0 <= x < |w.s.file| && w.s.file[x] == w.m[x]
    {
      assert Agrees(w.s, w.m, Loose(w), x);
      assert !IsDirty(w.s, x);
    }
    OpenSound(w.s.file, total, w.s.ranges);
    forall x
      ensures x in v.m <==> x in w.m
      ensures x in v.m ==> v.m[x] == w.m[x]
    {
      assert x in w.s.ranges <==> x in w.m;
      assert total != 0 && x in w.s.ranges ==> x in Span(0, total);
    }
  }

  /** A present byte past TotalSize comes back as a short read. */
  lemma ReopenLoses(w: World, total: nat)
    requires FlushedOut(w) && total != 0 && !(w.s.ranges <= Span(0, total))
    ensures !ReopensSame(w, total)
  {
    var x :| x in w.s.ranges && x !in Span(0, total);
    var t := Open(w.s.file, total, w.s.ranges);
    assert Loose(w) == {};
    assert Agrees(w.s, w.m, Loose(w), x) && !IsDirty(w.s, x);
    hide Inv, Tidy;
    assert Span(x, x + 1) == {x};
    QuietRead(w, x, 1);
    assert Read(w.s, x, 1).Data?;
    assert |t.file| == total;
    assert !Serves(t, x);
    if AllFast(t, x, 1) {
      assert Read(t, x, 1) == ReadFast(t, x, 1) == ShortFile;
    } else {
      assert x in Span(x, x + 1);
      assert Read(t, x, 1) == ReadLocked(t, x, 1) == ShortFile;
    }
  }
}
