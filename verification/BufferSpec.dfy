/**
 What a Buffer (internal/buffer/buffer.go) holds at a lock release, and what
 each of its locked sections does to it. The heap model in Buffer.dfy is proved
 to perform exactly these steps; BufferRuns.dfy proves what every run of them
 keeps.
 */
module BufferSpec {
  import opened Extents

  newtype byte = x: int | 0 <= x < 256

  /** blockSize: 1 MB. */
  const BLOCK: int := 0x10_0000

  predicate Aligned(o: int) {
    o % BLOCK == 0
  }

  function AlignDown(x: int): (o: int)
    ensures Aligned(o) && o <= x < o + BLOCK
  {
    x - x % BLOCK
  }

  lemma AlignUnique(o: int, x: int)
    requires Aligned(o) && o <= x < o + BLOCK
    ensures AlignDown(x) == o
  {
  }

  lemma AlignApart(o: int, p: int)
    requires Aligned(o) && Aligned(p) && o < p
    ensures o + BLOCK <= p
  {
  }

  /** pwrite: bytes past the end extend the file, a gap reads as zero. */
  function Patch(f: seq<byte>, off: int, src: seq<byte>): (g: seq<byte>)
    requires off >= 0
  {
    if src == [] then f
    else
      seq(if off + |src| > |f| then off + |src| else |f|,
          i requires i >= 0 =>
            if off <= i < off + |src| then src[i - off] else if i < |f| then f[i] else 0)
  }

  datatype Blk = Blk(data: seq<byte>, dirty: set<int>)

  /**
   blocks and lru are the RAM cache, keyed by block offset and listed most
   recently written first; ranges, onDisk and file are the two trackers and the
   backing file; fast holds the offsets of the blocks whose slot says
   stateFastDisk, out of `slots` slots.
   */
  datatype State = State(
    blocks: map<int, Blk>, lru: seq<int>,
    ranges: set<int>, onDisk: set<int>, file: seq<byte>,
    fast: set<int>, slots: nat)

  predicate HasSlot(s: State, o: int) {
    0 <= o < s.slots * BLOCK
  }

  function SetSlot(s: State, o: int, isFast: bool): State {
    if !HasSlot(s, o) then s
    else if isFast then s.(fast := s.fast + {o})
    else s.(fast := s.fast - {o})
  }

  ghost predicate FullyPresent(ranges: set<int>, o: int) {
    Span(o, o + BLOCK) <= ranges
  }

  /** markStateForBlockLocked */
  ghost function Mark(s: State, o: int): State {
    SetSlot(s, o, o !in s.blocks && FullyPresent(s.ranges, o))
  }

  /** The entries of q that are in ks, in order. */
  function Keep(q: seq<int>, ks: set<int>): seq<int> {
    if q == [] then []
    else (if q[0] in ks then [q[0]] else []) + Keep(q[1..], ks)
  }

  function ToFront(q: seq<int>, o: int): seq<int> {
    [o] + Keep(q, (set x | x in q) - {o})
  }

  // ---- the locked sections ------------------------------------------------

  /** dropBlockLocked */
  ghost function Drop(s: State, o: int): State {
    var t := s.(blocks := s.blocks - {o}, lru := Keep(s.lru, s.blocks.Keys - {o}));
    Mark(t, o)
  }

  /** One extent of flushBlockLocked; a write that failed part-way is not noted in onDisk. */
  function FlushExtent(s: State, o: int, lo: int, hi: int, noted: bool): State
    requires o in s.blocks && 0 <= lo <= hi <= |s.blocks[o].data| && 0 <= o
  {
    s.(file := Patch(s.file, o + lo, s.blocks[o].data[lo..hi]),
       onDisk := if noted then s.onDisk + Span(o + lo, o + hi) else s.onDisk)
  }

  function ClearDirty(s: State, o: int): State
    requires o in s.blocks
  {
    s.(blocks := s.blocks[o := s.blocks[o].(dirty := {})])
  }

  /** The contents acquireBlockLocked gives a new block: disk bytes over whatever the memory held. */
  ghost function Loaded(s: State, o: int, junk: seq<byte>): seq<byte>
    requires |junk| == BLOCK && 0 <= o
  {
    if Span(o, o + BLOCK) * s.ranges == {} then junk
    else seq(BLOCK, i requires 0 <= i < BLOCK => if o + i < |s.file| then s.file[o + i] else junk[i])
  }

  ghost function Load(s: State, o: int, junk: seq<byte>): State
    requires |junk| == BLOCK && 0 <= o
  {
    SetSlot(s.(blocks := s.blocks[o := Blk(Loaded(s, o, junk), {})], lru := [o] + s.lru), o, false)
  }

  /** writeIntoBlockLocked */
  function WriteInto(s: State, o: int, lo: int, src: seq<byte>): State
    requires o in s.blocks && 0 <= lo
  {
    var b := s.blocks[o];
    var hi := lo + |src|;
    SetSlot(s.(blocks := s.blocks[o := Blk(Patch(b.data, lo, src), b.dirty + Span(lo, hi))],
               lru := ToFront(s.lru, o),
               ranges := s.ranges + Span(o + lo, o + hi)),
            o, false)
  }

  /** The publish step of a write-through, under the lock after its pwrite. */
  ghost function Publish(s: State, o: int, lo: int, src: seq<byte>): State
    requires 0 <= lo
  {
    var t := s.(onDisk := s.onDisk + Span(o + lo, o + lo + |src|));
    if o in t.blocks then WriteInto(t, o, lo, src)
    else Mark(t.(ranges := t.ranges + Span(o + lo, o + lo + |src|)), o)
  }

  /** Does discarding [off, end) take the whole block out of RAM? */
  ghost predicate Doomed(s: State, o: int, off: int, end: int) {
    || (off <= o && o + BLOCK <= end)
    || ((o == AlignDown(off) || o == AlignDown(end - 1))
        && Span(o, o + BLOCK) * (s.ranges - Span(off, end)) == {})
  }

  ghost predicate Touched(o: int, off: int, end: int) {
    Aligned(o) && AlignDown(off) <= o < end
  }

  /** The locked part of discard. */
  ghost function Discard(s: State, off: int, end: int): State {
    var blocks := map o | o in s.blocks && !Doomed(s, o, off, end) ::
                    s.blocks[o].(dirty := s.blocks[o].dirty - Span(off - o, end - o));
    var ranges := s.ranges - Span(off, end);
    s.(blocks := blocks,
       lru := Keep(s.lru, blocks.Keys),
       ranges := ranges,
       onDisk := s.onDisk - Span(off, end),
       fast := (set o | o in s.fast && !Touched(o, off, end))
               + (set o | o in Span(AlignDown(off), end) && Touched(o, off, end) && HasSlot(s, o)
                          && o !in blocks && Span(o, o + BLOCK) <= ranges))
  }

  /** punchHole keeps the size of the file and leaves nothing meaningful in the hole. */
  predicate Punched(f: seq<byte>, g: seq<byte>, off: int, end: int) {
    |g| == |f| && forall x :: 0 <= x < |f| && !(off <= x < end) ==> g[x] == f[x]
  }

  // ---- reading -------------------------------------------------------------

  datatype ReadResult = Data(bytes: seq<byte>) | NotPresent | ShortFile

  /** The byte the locked path serves for x: RAM if the block is resident, else the file. */
  function ByteAt(s: State, x: int): (r: byte) {
    var o := AlignDown(x);
    if o in s.blocks then
      if 0 <= x - o < |s.blocks[o].data| then s.blocks[o].data[x - o] else 0
    else if 0 <= x < |s.file| then s.file[x] else 0
  }

  ghost predicate Serves(s: State, x: int) {
    AlignDown(x) in s.blocks || 0 <= x < |s.file|
  }

  /** ReadAt's locked path. */
  ghost function ReadLocked(s: State, off: int, n: nat): ReadResult {
    if !(Span(off, off + n) <= s.ranges) then NotPresent
    else if exists x :: x in Span(off, off + n) && !Serves(s, x) then ShortFile
    else Data(seq(n, i requires 0 <= i < n => ByteAt(s, off + i)))
  }

  ghost predicate AllFast(s: State, off: int, n: nat) {
    forall x :: x in Span(off, off + n) ==> AlignDown(x) in s.fast
  }

  /** The bare pread of the fast path. */
  function ReadFast(s: State, off: int, n: nat): ReadResult {
    if 0 <= off && off + n <= |s.file| then Data(s.file[off..off + n]) else ShortFile
  }

  ghost function Read(s: State, off: int, n: nat): ReadResult {
    if AllFast(s, off, n) then ReadFast(s, off, n) else ReadLocked(s, off, n)
  }

  // ---- what holds at every lock release ------------------------------------

  ghost predicate IsDirty(s: State, x: int) {
    AlignDown(x) in s.blocks && x - AlignDown(x) in s.blocks[AlignDown(x)].dirty
  }

  ghost predicate Shaped(s: State) {
    forall o :: o in s.blocks ==>
      0 <= o && Aligned(o) && |s.blocks[o].data| == BLOCK && s.blocks[o].dirty <= Span(0, BLOCK)
  }

  ghost predicate FastExact(s: State) {
    forall o :: o in s.fast <==>
      Aligned(o) && HasSlot(s, o) && o !in s.blocks && FullyPresent(s.ranges, o)
  }

  ghost predicate NoDup(q: seq<int>) {
    forall i, j :: 0 <= i < j < |q| ==> q[i] != q[j]
  }

  ghost predicate LruExact(s: State) {
    NoDup(s.lru) && forall o :: o in s.lru <==> o in s.blocks
  }

  ghost predicate Tidy(s: State) {
    Shaped(s) && FastExact(s) && LruExact(s)
  }

  /**
   What the buffer says about offset x, against the partial map m it stands for:
   x is present exactly when it is on disk or dirty, and exactly when m has it; a
   byte on disk is inside the file; and unless x is loose (its last write-through
   is in flight, or failed), a clean byte in RAM equals the one in the file, and
   the byte served is the one in m.
   */
  ghost predicate Agrees(s: State, m: map<int, byte>, loose: set<int>, x: int) {
    && (x in s.ranges <==> x in s.onDisk || IsDirty(s, x))
    && (x in s.onDisk ==> 0 <= x < |s.file|)
    && (x in s.ranges <==> x in m)
    && (x in m && x !in loose ==> ByteAt(s, x) == m[x])
    && (x in m && x !in loose && !IsDirty(s, x) ==> s.file[x] == m[x])
  }

  ghost predicate Sound(s: State, m: map<int, byte>, loose: set<int>) {
    forall x :: Agrees(s, m, loose, x)
  }

  ghost predicate Inv(s: State, m: map<int, byte>, loose: set<int>) {
    Tidy(s) && Sound(s, m, loose)
  }
}
