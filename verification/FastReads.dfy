/**
 The lock-free read of internal/buffer/buffer.go:487-511 against the pool's own punches
 (punchBehindWindow, 677-716). The read loads its slots and preads later, without a
 second look; a pass samples the read head once, lists what is present below the window
 and then discards and punches range after range. In between anything may happen that
 the callers' contract allows.
 */
module FastReads {
  import opened Options
  import opened Extents
  import opened BufferSpec
  import opened BufferSteps
  import opened BufferRuns
  import opened BufferReads

  /** A pass that has sampled the head; or one that has listed what to discard, and may have a hole to punch. */
  datatype Pass = Sampled(ceiling: int) | Listed(left: seq<Extent>, hole: Option<nat>)

  datatype Config = Config(w: World, head: int, passes: map<nat, Pass>)

  datatype Move =
    | Other(e: Event)                       // any step of a caller, an eviction or a flush
    | SetHead(off: int)
    | SampleHead(p: nat)
    | ListPresent(p: nat, present: seq<Extent>)
    | DiscardNext(p: nat, id: nat)
    | PunchNext(p: nat, file: seq<byte>)
    | Finish(p: nat)

  /** The hole is the pass's to punch. */
  predicate Holds(pass: Pass, id: nat) {
    pass.Listed? && pass.hole == Some(id)
  }

  ghost predicate Owned(passes: map<nat, Pass>, id: nat) {
    exists p :: p in passes && Holds(passes[p], id)
  }

  ghost predicate CanMove(c: Config, mv: Move, back: int) {
    match mv
    case Other(e) => Enabled(c.w, e) && (e.PunchHole? ==> !Owned(c.passes, e.id))
    case SetHead(_) => true
    case SampleHead(p) => p !in c.passes && c.head > 0 && c.head - back > 0
    case ListPresent(p, present) =>
      && p in c.passes && c.passes[p].Sampled?
      && Canonical(present) && Bytes(present) == c.w.s.ranges * Span(0, c.passes[p].ceiling)
    case DiscardNext(p, id) =>
      && p in c.passes && c.passes[p].Listed? && c.passes[p].hole == None && c.passes[p].left != []
      && Enabled(c.w, DiscardRange(id, c.passes[p].left[0].off, c.passes[p].left[0].end))
    case PunchNext(p, file) =>
      && p in c.passes && c.passes[p].Listed? && c.passes[p].hole.Some?
      && Enabled(c.w, PunchHole(c.passes[p].hole.value, file))
    case Finish(p) => p in c.passes && c.passes[p] == Listed([], None)
  }

  ghost function Moved(c: Config, mv: Move, back: int): Config
    requires WInv(c.w) && CanMove(c, mv, back)
  {
    match mv
    case Other(e) => c.(w := Next(c.w, e))
    case SetHead(off) => c.(head := if off < 0 then 0 else off)
    case SampleHead(p) => c.(passes := c.passes[p := Sampled(c.head - back)])
    case ListPresent(p, present) => c.(passes := c.passes[p := Listed(present, None)])
    case DiscardNext(p, id) =>
      var left := c.passes[p].left;
      var w := Next(c.w, DiscardRange(id, left[0].off, left[0].end));
      Config(w, c.head, c.passes[p := Listed(left[1..], if id in w.ops then Some(id) else None)])
    case PunchNext(p, file) =>
      Config(Next(c.w, PunchHole(c.passes[p].hole.value, file)), c.head, c.passes[p := Listed(c.passes[p].left, None)])
    case Finish(p) => c.(passes := c.passes - {p})
  }

  /** Does a step write or discard x on its caller's behalf? */
  predicate Touches(e: Event, x: int) {
    match e
    case CachedWrite(o, lo, src) => o + lo <= x < o + lo + |src|
    case BeginThrough(_, o, lo, src) => o + lo <= x < o + lo + |src|
    case DiscardRange(_, off, end) => off <= x < end
    case _ => false
  }

  /**
   What the callers keep to while a read of [off, off+n) lasts: nobody writes or
   discards its bytes, and the published head leaves them inside the window.
   */
  ghost predicate Keeps(mv: Move, off: int, n: nat, back: int) {
    match mv
    case Other(e) => forall x :: off <= x < off + n ==> !Touches(e, x)
    case SetHead(h) => h - back <= off && 0 - back <= off
    case _ => true
  }

  /** c leads to d by these moves, the contract kept throughout. */
  ghost predicate Course(c: Config, mvs: seq<Move>, d: Config, off: int, n: nat, back: int)
    decreases |mvs|
  {
    if mvs == [] then d == c
    else
      && WInv(c.w) && CanMove(c, mvs[0], back) && Keeps(mvs[0], off, n, back)
      && Course(Moved(c, mvs[0], back), mvs[1..], d, off, n, back)
  }

  /** Passes list canonical ranges, and each has its own hole among the operations in flight. */
  ghost predicate PassOk(w: World, pass: Pass) {
    pass.Listed? ==>
      && Canonical(pass.left) && (forall x :: x in Bytes(pass.left) ==> 0 <= x)
      && (pass.hole.Some? ==> pass.hole.value in w.ops && w.ops[pass.hole.value].Hole?)
  }

  ghost predicate ConfigOk(c: Config) {
    && WInv(c.w)
    && (forall p :: p in c.passes ==> PassOk(c.w, c.passes[p]))
    && (forall p, q, id: nat :: p in c.passes && q in c.passes && Holds(c.passes[p], id) && Holds(c.passes[q], id) ==> p == q)
  }

  // ---- a byte that nobody touches ------------------------------------------------------

  /** x is present with value v, and whole. */
  ghost predicate Holding(w: World, x: int, v: byte) {
    x in w.m && w.m[x] == v && x !in Loose(w)
  }

  /** And the file has it too. */
  ghost predicate Firm(w: World, x: int, v: byte) {
    Holding(w, x, v) && !IsDirty(w.s, x)
  }

  /** From w to z, x keeps its value, and the file keeps it if it had it. */
  ghost predicate Stays(w: World, z: World, x: int, v: byte) {
    Holding(z, x, v) && (Firm(w, x, v) ==> Firm(z, x, v))
  }

  lemma FirmInFile(w: World, x: int, v: byte)
    requires WInv(w) && Firm(w, x, v)
    ensures 0 <= x < |w.s.file| && w.s.file[x] == v && x in w.s.onDisk
  {
    assert Agrees(w.s, w.m, Loose(w), x);
    hide ByteAt;
  }

  /** A slot that says fast speaks for the bytes of its block. */
  lemma FastIsFirm(w: World, x: int)
    requires WInv(w) && AlignDown(x) in w.s.fast && x !in Loose(w)
    ensures x in w.m && Firm(w, x, w.m[x])
  {
    hide AlignDown, Aligned, ByteAt;
    assert Agrees(w.s, w.m, Loose(w), x);
    assert x in Span(AlignDown(x), AlignDown(x) + BLOCK);
  }

  lemma FirmInternal(w: World, e: Event, x: int, v: byte)
    requires WInv(w) && Enabled(w, e) && Internal(e) && Holding(w, x, v)
    ensures Stays(w, Next(w, e), x, v)
  {
    match e {
      case Evict(o) => DropKeeps(w.s, o, w.m, Loose(w));
      case FlushPart(o, lo, hi, noted) => FlushExtentKeeps(w.s, o, lo, hi, noted, w.m, Loose(w));
      case Clean(o) => ClearDirtyKeeps(w.s, o, w.m, Loose(w));
      case Fill(o, junk) => LoadKeeps(w.s, o, junk, w.m, Loose(w));
    }
  }

  lemma FirmCached(w: World, e: Event, x: int, v: byte)
    requires WInv(w) && Enabled(w, e) && e.CachedWrite? && !Touches(e, x) && Holding(w, x, v)
    ensures Stays(w, Next(w, e), x, v)
  {
    NextCached(w, e.o, e.lo, e.src);
    WriteIntoKeeps(w.s, e.o, e.lo, e.src, w.m, Loose(w));
    hide WInv, Enabled, Next, WriteInto, IsDirty, AlignDown;
  }

  lemma FirmBegin(w: World, e: Event, x: int, v: byte)
    requires WInv(w) && Enabled(w, e) && e.BeginThrough? && !Touches(e, x) && Holding(w, x, v)
    ensures Stays(w, Next(w, e), x, v)
  {
    NextBegin(w, e.id, e.o, e.lo, e.src);
    hide WInv, Enabled, Next, IsDirty;
  }

  lemma FirmPwrite(w: World, e: Event, x: int, v: byte)
    requires WInv(w) && Enabled(w, e) && (e.Pwrite? || e.PwriteFails?) && Holding(w, x, v)
    ensures Stays(w, Next(w, e), x, v)
  {
    InFlightHas(w.ops, e.id);
    if e.Pwrite? {
      NextPwrite(w, e.id);
    } else {
      NextPwriteFails(w, e.id, e.part);
    }
    hide WInv, Enabled, Next, Patch, AlignDown;
  }

  lemma FirmPublish(w: World, e: Event, x: int, v: byte)
    requires WInv(w) && Enabled(w, e) && e.PublishThrough? && Holding(w, x, v)
    ensures Stays(w, Next(w, e), x, v)
  {
    var op := w.ops[e.id];
    InFlightHas(w.ops, e.id);
    NextPublish(w, e.id);
    assert OpOk(w.s, op) by { OpIsOk(w, e.id); }
    PublishOp(w.s, op, w.m, Loose(w));
    hide WInv, Enabled, Next, Publish, IsDirty, AlignDown;
  }

  lemma FirmDiscard(w: World, e: Event, x: int, v: byte)
    requires WInv(w) && Enabled(w, e) && e.DiscardRange? && !Touches(e, x) && Holding(w, x, v)
    ensures Stays(w, Next(w, e), x, v)
  {
    NextErase(w, e.id, e.off, e.end);
    DiscardKeeps(w.s, e.off, e.end, w.m, Loose(w));
    hide WInv, Enabled, Next, Discard, AlignDown;
  }

  lemma FirmPunch(w: World, e: Event, x: int, v: byte)
    requires WInv(w) && Enabled(w, e) && e.PunchHole? && Holding(w, x, v)
    ensures Stays(w, Next(w, e), x, v)
  {
    NextPunch(w, e.id, e.file);
    hide WInv, Enabled, Next, AlignDown;
  }

  /** No step that leaves x alone changes it, in the map or in the file. */
  lemma FirmStays(w: World, e: Event, x: int, v: byte)
    requires WInv(w) && Enabled(w, e) && !Touches(e, x) && Holding(w, x, v)
    ensures WInv(Next(w, e)) && Stays(w, Next(w, e), x, v)
  {
    StepKeeps(w, e);
    hide WInv, Enabled, Next, Stays, Holding, Touches;
    match e
    case Evict(_) => FirmInternal(w, e, x, v);
    case FlushPart(_, _, _, _) => FirmInternal(w, e, x, v);
    case Clean(_) => FirmInternal(w, e, x, v);
    case Fill(_, _) => FirmInternal(w, e, x, v);
    case CachedWrite(_, _, _) => FirmCached(w, e, x, v);
    case BeginThrough(_, _, _, _) => FirmBegin(w, e, x, v);
    case Pwrite(_) => FirmPwrite(w, e, x, v);
    case PwriteFails(_, _) => FirmPwrite(w, e, x, v);
    case PublishThrough(_) => FirmPublish(w, e, x, v);
    case DiscardRange(_, _, _) => FirmDiscard(w, e, x, v);
    case PunchHole(_, _) => FirmPunch(w, e, x, v);
  }

  // ---- the passes ------------------------------------------------------------------------

  /** The pass may still discard bytes of [off, off+n). */
  ghost predicate Threatens(pass: Pass, off: int, n: nat) {
    match pass
    case Sampled(ceiling) => off < ceiling
    case Listed(left, _) => Bytes(left) * Span(off, off + n) != {}
  }

  ghost predicate Quiet(c: Config, off: int, n: nat) {
    forall p :: p in c.passes ==> !Threatens(c.passes[p], off, n)
  }

  lemma HolesStay(w: World, e: Event, id: nat)
    requires WInv(w) && Enabled(w, e) && id in w.ops && w.ops[id].Hole? && !(e.PunchHole? && e.id == id)
    ensures id in Next(w, e).ops && Next(w, e).ops[id] == w.ops[id]
  {
    hide WInv, WriteInto, Publish, Discard, Written, Erased, Patch;
  }

  lemma FirstOfList(left: seq<Extent>)
    requires left != [] && Canonical(left)
    ensures left[0].off < left[0].end && Canonical(left[1..])
    ensures Bytes(left) == Span(left[0].off, left[0].end) + Bytes(left[1..])
  {
    assert left[0..] == left;
    BytesDrop(left, 0);
    hide Bytes;
  }

  lemma OtherKeepsOk(c: Config, e: Event, back: int)
    requires ConfigOk(c) && CanMove(c, Other(e), back)
    ensures ConfigOk(Moved(c, Other(e), back))
  {
    StepKeeps(c.w, e);
    hide WInv, Enabled, Next, Bytes, Canonical;
    var d := Moved(c, Other(e), back);
    forall p | p in c.passes
      ensures PassOk(d.w, c.passes[p])
    {
      assert PassOk(c.w, c.passes[p]);
      if c.passes[p].Listed? && c.passes[p].hole.Some? {
        assert Holds(c.passes[p], c.passes[p].hole.value);
        HolesStay(c.w, e, c.passes[p].hole.value);
      }
    }
  }

  /** Pass p moves on to pass', and the others keep their holes. */
  lemma PassMoves(c: Config, w: World, p: nat, pass: Pass)
    requires ConfigOk(c) && WInv(w) && PassOk(w, pass)
    requires forall id :: id in c.w.ops && c.w.ops[id].Hole? && !(p in c.passes && Holds(c.passes[p], id)) ==>
      id in w.ops && w.ops[id] == c.w.ops[id]
    requires forall q, id: nat :: q in c.passes && q != p && Holds(pass, id) ==> !Holds(c.passes[q], id)
    ensures ConfigOk(Config(w, c.head, c.passes[p := pass]))
  {
    hide WInv, Bytes, Canonical;
    var passes := c.passes[p := pass];
    forall q | q in passes && q != p
      ensures PassOk(w, passes[q])
    {
      assert PassOk(c.w, c.passes[q]);
      if c.passes[q].Listed? && c.passes[q].hole.Some? {
        assert Holds(c.passes[q], c.passes[q].hole.value);
      }
    }
  }

  lemma ListKeepsOk(c: Config, p: nat, present: seq<Extent>, back: int)
    requires ConfigOk(c) && CanMove(c, ListPresent(p, present), back)
    ensures ConfigOk(Moved(c, ListPresent(p, present), back))
  {
    hide WInv, Bytes, Canonical;
    PassMoves(c, c.w, p, Listed(present, None));
  }

  lemma DiscardKeepsOk(c: Config, p: nat, id: nat, back: int)
    requires ConfigOk(c) && CanMove(c, DiscardNext(p, id), back)
    ensures ConfigOk(Moved(c, DiscardNext(p, id), back))
  {
    var left := c.passes[p].left;
    var e := DiscardRange(id, left[0].off, left[0].end);
    assert PassOk(c.w, c.passes[p]);
    FirstOfList(left);
    StepKeeps(c.w, e);
    NextErase(c.w, id, left[0].off, left[0].end);
    hide WInv, Enabled, Next, Bytes, Canonical, Discard;
    var w := Next(c.w, e);
    assert forall q :: q in c.passes ==> PassOk(c.w, c.passes[q]) && !Holds(c.passes[q], id);
    PassMoves(c, w, p, Listed(left[1..], if id in w.ops then Some(id) else None));
  }

  lemma PunchKeepsOk(c: Config, p: nat, file: seq<byte>, back: int)
    requires ConfigOk(c) && CanMove(c, PunchNext(p, file), back)
    ensures ConfigOk(Moved(c, PunchNext(p, file), back))
  {
    var id := c.passes[p].hole.value;
    assert PassOk(c.w, c.passes[p]) && Holds(c.passes[p], id);
    StepKeeps(c.w, PunchHole(id, file));
    NextPunch(c.w, id, file);
    hide WInv, Enabled, Next, Bytes, Canonical;
    PassMoves(c, Next(c.w, PunchHole(id, file)), p, Listed(c.passes[p].left, None));
  }

  lemma MoveKeepsOk(c: Config, mv: Move, back: int)
    requires ConfigOk(c) && CanMove(c, mv, back)
    ensures ConfigOk(Moved(c, mv, back))
  {
    match mv
    case Other(e) => OtherKeepsOk(c, e, back);
    case SetHead(_) =>
    case SampleHead(p) =>
      hide WInv;
      PassMoves(c, c.w, p, Sampled(c.head - back));
    case ListPresent(p, present) => ListKeepsOk(c, p, present, back);
    case DiscardNext(p, id) => DiscardKeepsOk(c, p, id, back);
    case PunchNext(p, file) => PunchKeepsOk(c, p, file, back);
    case Finish(p) => hide WInv;
  }

  // ---- a read that no pass threatens -----------------------------------------------------

  /** The published head leaves off inside the window. */
  predicate Covered(c: Config, off: int, back: int) {
    c.head - back <= off
  }

  lemma MoveQuiet(c: Config, mv: Move, off: int, n: nat, back: int)
    requires ConfigOk(c) && CanMove(c, mv, back) && Keeps(mv, off, n, back)
    requires Quiet(c, off, n) && Covered(c, off, back)
    ensures Quiet(Moved(c, mv, back), off, n) && Covered(Moved(c, mv, back), off, back)
  {
    if mv.DiscardNext? {
      assert PassOk(c.w, c.passes[mv.p]);
      FirstOfList(c.passes[mv.p].left);
    }
    hide WInv, Enabled, Next, Bytes, Canonical;
  }

  /** A pass that is no threat does not come to x. */
  lemma NotNext(c: Config, p: nat, off: int, n: nat, x: int)
    requires ConfigOk(c) && p in c.passes && c.passes[p].Listed? && c.passes[p].left != [] && Quiet(c, off, n)
    requires off <= x < off + n
    ensures var r := c.passes[p].left[0]; !(r.off <= x < r.end)
  {
    hide WInv;
    var left := c.passes[p].left;
    assert PassOk(c.w, c.passes[p]) && !Threatens(c.passes[p], off, n);
    FirstOfList(left);
    assert x in Span(off, off + n);
    assert x in Bytes(left) ==> x in Bytes(left) * Span(off, off + n);
  }

  lemma MoveStays(c: Config, mv: Move, off: int, n: nat, back: int, x: int, v: byte)
    requires ConfigOk(c) && CanMove(c, mv, back) && Keeps(mv, off, n, back) && Quiet(c, off, n)
    requires off <= x < off + n && Holding(c.w, x, v)
    ensures Stays(c.w, Moved(c, mv, back).w, x, v)
  {
    hide WInv, Enabled, Next, Stays, Holding, Quiet;
    match mv
    case Other(e) => FirmStays(c.w, e, x, v);
    case DiscardNext(p, id) =>
      var left := c.passes[p].left;
      NotNext(c, p, off, n, x);
      FirmStays(c.w, DiscardRange(id, left[0].off, left[0].end), x, v);
    case PunchNext(p, file) => FirmStays(c.w, PunchHole(c.passes[p].hole.value, file), x, v);
    case _ => StaysPut(c.w, x, v);
  }

  lemma StaysPut(w: World, x: int, v: byte)
    requires Holding(w, x, v)
    ensures Stays(w, w, x, v)
  {
  }

  /** Over a whole course that begins with no pass threatening the read. */
  lemma {:induction false} CourseStays(c: Config, mvs: seq<Move>, d: Config, off: int, n: nat, back: int, x: int, v: byte)
    requires ConfigOk(c) && Course(c, mvs, d, off, n, back) && Quiet(c, off, n) && Covered(c, off, back)
    requires off <= x < off + n && Holding(c.w, x, v)
    ensures ConfigOk(d) && Quiet(d, off, n) && Covered(d, off, back) && Stays(c.w, d.w, x, v)
    decreases |mvs|
  {
    if mvs != [] {
      var next := Moved(c, mvs[0], back);
      MoveKeepsOk(c, mvs[0], back);
      MoveQuiet(c, mvs[0], off, n, back);
      MoveStays(c, mvs[0], off, n, back, x, v);
      hide ConfigOk, Quiet, CanMove, Moved, Keeps, Holding, WInv;
      CourseStays(next, mvs[1..], d, off, n, back, x, v);
    }
  }

  /** The slot of x was loaded somewhere along the way, and said fast. */
  ghost predicate LoadedFast(c: Config, mvs: seq<Move>, d: Config, off: int, n: nat, back: int, x: int) {
    exists k, at :: 0 <= k <= |mvs| && Course(c, mvs[..k], at, off, n, back)
      && Course(at, mvs[k..], d, off, n, back) && AlignDown(x) in at.w.s.fast
  }

  /** A read under way from c to d: every slot said fast, each at its own moment, and the pread comes at d. */
  ghost predicate FastRead(c: Config, mvs: seq<Move>, d: Config, off: int, n: nat, back: int) {
    && Course(c, mvs, d, off, n, back)
    && (forall x :: off <= x < off + n ==> LoadedFast(c, mvs, d, off, n, back, x))
  }

  lemma ByteHolds(c: Config, mvs: seq<Move>, d: Config, off: int, n: nat, back: int, x: int)
    requires ConfigOk(c) && Quiet(c, off, n) && Covered(c, off, back)
    requires off <= x < off + n && x in c.w.m && x !in Loose(c.w) && LoadedFast(c, mvs, d, off, n, back, x)
    ensures 0 <= x < |d.w.s.file| && d.w.s.file[x] == c.w.m[x]
  {
    var v := c.w.m[x];
    var k, at :| 0 <= k <= |mvs| && Course(c, mvs[..k], at, off, n, back)
      && Course(at, mvs[k..], d, off, n, back) && AlignDown(x) in at.w.s.fast;
    CourseStays(c, mvs[..k], at, off, n, back, x, v);
    FastIsFirm(at.w, x);
    CourseStays(at, mvs[k..], d, off, n, back, x, v);
    FirmInFile(d.w, x, v);
  }

  /** With no pass threatening it, the fast read returns the map's bytes. */
  lemma QuietReadHolds(c: Config, mvs: seq<Move>, d: Config, off: int, n: nat, back: int)
    requires ConfigOk(c) && Quiet(c, off, n) && Covered(c, off, back)
    requires 0 <= off && 0 < n && Span(off, off + n) <= c.w.m.Keys && Span(off, off + n) !! Loose(c.w)
    requires FastRead(c, mvs, d, off, n, back)
    ensures ReadFast(d.w.s, off, n) == Lookup(c.w.m, off, n)
  {
    hide ConfigOk, Quiet, Course, LoadedFast, Loose;
    forall x | off <= x < off + n
      ensures 0 <= x < |d.w.s.file| && x in c.w.m && d.w.s.file[x] == c.w.m[x]
    {
      assert x in Span(off, off + n);
      ByteHolds(c, mvs, d, off, n, back, x);
    }
    assert off + n - 1 in c.w.m;
    var told := Lookup(c.w.m, off, n);
    assert d.w.s.file[off..off + n] == told.bytes;
  }

  // ---- a read that a pass threatens --------------------------------------------------------

  lemma {:induction false} CourseThen(c: Config, a: seq<Move>, m: Config, b: seq<Move>, d: Config, off: int, n: nat, back: int)
    requires Course(c, a, m, off, n, back) && Course(m, b, d, off, n, back)
    ensures Course(c, a + b, d, off, n, back)
    decreases |a|
  {
    hide WInv, CanMove, Keeps, Moved;
    if a == [] {
      assert a + b == b;
    } else {
      CourseThen(Moved(c, a[0], back), a[1..], m, b, d, off, n, back);
      assert (a + b)[1..] == a[1..] + b;
    }
  }

  lemma CourseOne(c: Config, mv: Move, off: int, n: nat, back: int)
    requires WInv(c.w) && CanMove(c, mv, back) && Keeps(mv, off, n, back)
    ensures Course(c, [mv], Moved(c, mv, back), off, n, back)
  {
    hide WInv, CanMove, Keeps, Moved;
    assert [mv][1..] == [];
    assert Course(Moved(c, mv, back), [], Moved(c, mv, back), off, n, back);
  }

  /** Every byte of the read is in the file with the value the map has. */
  ghost predicate AllFirm(w: World, m: map<int, byte>, off: int, n: nat) {
    forall x :: off <= x < off + n ==> x in m && Firm(w, x, m[x])
  }

  /** The pass has as much ahead of it as before. */
  predicate SameAhead(a: Pass, b: Pass) {
    if a.Sampled? then b == a else b.Listed? && b.left == a.left
  }

  /** An operation in flight comes to its end, and no pass gets further. */
  lemma OneOpDone(c: Config, id: nat, m: map<int, byte>, off: int, n: nat, back: int)
    returns (mvs: seq<Move>, d: Config)
    requires ConfigOk(c) && id in c.w.ops && AllFirm(c.w, m, off, n)
    ensures Course(c, mvs, d, off, n, back) && ConfigOk(d) && d.w.ops == c.w.ops - {id} && AllFirm(d.w, m, off, n)
    ensures d.passes.Keys == c.passes.Keys && forall p :: p in c.passes ==> SameAhead(c.passes[p], d.passes[p])
  {
    hide ConfigOk, WInv, Course, AllFirm;
    mvs, d := [], c;
    assert WInv(c.w) by { OkWorld(c); }
    assert Course(c, [], c, off, n, back) by { CourseNone(c, off, n, back); }
    if c.w.ops[id].Through? && !c.w.ops[id].inFile {
      NextPwrite(c.w, id);
      d := OtherDone(c, Pwrite(id), m, off, n, back);
      mvs := [Other(Pwrite(id))];
    }
    if c.w.ops[id].Through? {
      assert WInv(d.w) by { OkWorld(d); }
      NextPublish(d.w, id);
      var e := OtherDone(d, PublishThrough(id), m, off, n, back);
      CourseThen(c, mvs, d, [Other(PublishThrough(id))], e, off, n, back);
      mvs, d := mvs + [Other(PublishThrough(id))], e;
    } else {
      mvs, d := HoleDone(c, id, c.w.s.file, m, off, n, back);
    }
  }

  lemma OkWorld(c: Config)
    requires ConfigOk(c)
    ensures WInv(c.w)
  {
  }

  lemma CourseNone(c: Config, off: int, n: nat, back: int)
    ensures Course(c, [], c, off, n, back)
  {
  }

  lemma OtherDone(c: Config, e: Event, m: map<int, byte>, off: int, n: nat, back: int) returns (d: Config)
    requires ConfigOk(c) && Enabled(c.w, e) && (e.Pwrite? || e.PublishThrough?) && AllFirm(c.w, m, off, n)
    ensures WInv(c.w) && d == c.(w := Next(c.w, e))
    ensures Course(c, [Other(e)], d, off, n, back) && ConfigOk(d) && AllFirm(d.w, m, off, n)
  {
    assert WInv(c.w) by { OkWorld(c); }
    d := c.(w := Next(c.w, e));
    CourseOne(c, Other(e), off, n, back);
    OtherKeepsOk(c, e, back);
    hide ConfigOk, WInv, Enabled, Next, Course;
    forall x | off <= x < off + n
      ensures x in m && Firm(d.w, x, m[x])
    {
      assert Firm(c.w, x, m[x]);
      FirmStays(c.w, e, x, m[x]);
    }
  }

  lemma HoleDone(c: Config, id: nat, file: seq<byte>, m: map<int, byte>, off: int, n: nat, back: int)
    returns (mvs: seq<Move>, d: Config)
    requires ConfigOk(c) && id in c.w.ops && c.w.ops[id].Hole? && AllFirm(c.w, m, off, n)
    requires Punched(c.w.s.file, file, c.w.ops[id].off, c.w.ops[id].end)
    ensures Course(c, mvs, d, off, n, back) && ConfigOk(d) && AllFirm(d.w, m, off, n)
    ensures d.w == c.w.(s := c.w.s.(file := file), ops := c.w.ops - {id})
    ensures d.passes.Keys == c.passes.Keys && forall p :: p in c.passes ==> SameAhead(c.passes[p], d.passes[p])
  {
    assert WInv(c.w) by { OkWorld(c); }
    NextPunch(c.w, id, file);
    hide WInv, Enabled, Next, Course, Punched, Firm, AllFirm;
    if Owned(c.passes, id) {
      var p :| p in c.passes && Holds(c.passes[p], id);
      hide ConfigOk;
      mvs, d := HoleOfPass(c, p, file, m, off, n, back);
    } else {
      mvs, d := [Other(PunchHole(id, file))], Moved(c, Other(PunchHole(id, file)), back);
      OtherKeepsOk(c, PunchHole(id, file), back);
      CourseOne(c, Other(PunchHole(id, file)), off, n, back);
      hide ConfigOk;
      FirmPunched(c.w, id, file, m, off, n);
    }
  }

  lemma FirmPunched(w: World, id: nat, file: seq<byte>, m: map<int, byte>, off: int, n: nat)
    requires WInv(w) && Enabled(w, PunchHole(id, file)) && AllFirm(w, m, off, n)
    ensures AllFirm(Next(w, PunchHole(id, file)), m, off, n)
  {
    hide WInv, Enabled, Next, Firm;
    forall x | off <= x < off + n
      ensures x in m && Firm(Next(w, PunchHole(id, file)), x, m[x])
    {
      FirmIsHolding(w, x, m[x]);
      FirmStays(w, PunchHole(id, file), x, m[x]);
    }
  }

  /** Everything in flight comes to its end. */
  lemma {:induction false} AllOpsDone(c: Config, m: map<int, byte>, off: int, n: nat, back: int)
    returns (mvs: seq<Move>, d: Config)
    requires ConfigOk(c) && AllFirm(c.w, m, off, n)
    ensures Course(c, mvs, d, off, n, back) && ConfigOk(d) && d.w.ops == map[] && AllFirm(d.w, m, off, n)
    ensures d.passes.Keys == c.passes.Keys && forall p :: p in c.passes ==> SameAhead(c.passes[p], d.passes[p])
    decreases |c.w.ops|
  {
    hide ConfigOk, WInv, Course, AllFirm;
    if c.w.ops == map[] {
      CourseNone(c, off, n, back);
      mvs, d := [], c;
    } else {
      var id :| id in c.w.ops;
      var first, mid := OneOpDone(c, id, m, off, n, back);
      assert |c.w.ops.Keys| == |mid.w.ops.Keys + {id}|;
      var rest;
      rest, d := AllOpsDone(mid, m, off, n, back);
      CourseThen(c, first, mid, rest, d, off, n, back);
      mvs := first + rest;
    }
  }

  /** One more byte behind a canonical list: the last extent grows, or a new one follows. */
  lemma ListLonger(rs: seq<Extent>, x: int) returns (longer: seq<Extent>)
    requires Canonical(rs) && (rs != [] ==> rs[|rs| - 1].end <= x)
    ensures Canonical(longer) && longer != [] && longer[|longer| - 1].end == x + 1
    ensures Bytes(longer) == Bytes(rs) + {x}
  {
    hide Bytes;
    BytesEmpty();
    var k := |rs| - 1;
    if rs != [] && rs[k].end == x {
      longer := rs[..k] + [Extent(rs[k].off, x + 1)];
      BytesLast(rs);
      BytesLast(longer);
      assert longer[..k] == rs[..k];
      assert Span(rs[k].off, x + 1) == Span(rs[k].off, x) + {x};
    } else {
      longer := rs + [Extent(x, x + 1)];
      BytesLast(longer);
      assert longer[..k + 1] == rs;
      assert Span(x, x + 1) == {x};
    }
  }

  /** Any set of offsets has its canonical list. */
  lemma {:induction false} ListOf(ranges: set<int>, hi: int) returns (rs: seq<Extent>)
    ensures Canonical(rs) && Bytes(rs) == ranges * Span(0, hi)
    ensures rs != [] ==> rs[|rs| - 1].end <= hi
    decreases hi
  {
    hide Bytes, Canonical;
    BytesEmpty();
    NoneCanonical();
    rs := [];
    if hi > 0 {
      rs := ListOf(ranges, hi - 1);
      SpanLonger(hi);
      hide Span;
      if hi - 1 in ranges {
        rs := ListLonger(rs, hi - 1);
      }
    } else {
      SpanNone(hi);
    }
  }

  lemma SpanLonger(hi: int)
    requires hi > 0
    ensures Span(0, hi) == Span(0, hi - 1) + {hi - 1}
  {
  }

  lemma SpanNone(hi: int)
    requires hi <= 0
    ensures Span(0, hi) == {}
  {
  }

  /** The file has at least the read's bytes, and one of them wrong. */
  ghost predicate Spoilt(w: World, m: map<int, byte>, off: int, n: nat) {
    off + n <= |w.s.file| && exists x :: 0 <= x && off <= x < off + n && x in m && w.s.file[x] != m[x]
  }

  lemma CanDiscard(c: Config, p: nat, back: int)
    requires ConfigOk(c) && c.w.ops == map[]
    requires p in c.passes && c.passes[p].Listed? && c.passes[p].hole == None && c.passes[p].left != []
    ensures CanMove(c, DiscardNext(p, 0), back)
  {
    hide WInv, Bytes, Canonical;
    var left := c.passes[p].left;
    assert PassOk(c.w, c.passes[p]);
    FirstOfList(left);
    assert left[0].off in Span(left[0].off, left[0].end);
  }

  /** The discard of a pass, with nothing else in flight. */
  lemma DiscardOfPass(c: Config, p: nat, off: int, n: nat, back: int) returns (d: Config)
    requires ConfigOk(c) && c.w.ops == map[]
    requires p in c.passes && c.passes[p].Listed? && c.passes[p].hole == None && c.passes[p].left != []
    ensures Course(c, [DiscardNext(p, 0)], d, off, n, back) && ConfigOk(d) && d.w.s.file == c.w.s.file
    ensures
      var r := c.passes[p].left[0];
      var none := c.w.s.onDisk * Span(r.off, r.end) == {};
      && WInv(c.w) && Enabled(c.w, DiscardRange(0, r.off, r.end)) && d.w == Next(c.w, DiscardRange(0, r.off, r.end))
      && d.w.ops == (if none then map[] else map[0 := Hole(r.off, r.end)])
      && d.passes == c.passes[p := Listed(c.passes[p].left[1..], if none then None else Some(0))]
  {
    var r := c.passes[p].left[0];
    CanDiscard(c, p, back);
    assert WInv(c.w) by { OkWorld(c); }
    DiscardKeepsOk(c, p, 0, back);
    CourseOne(c, DiscardNext(p, 0), off, n, back);
    NextErase(c.w, 0, r.off, r.end);
    d := Moved(c, DiscardNext(p, 0), back);
    hide WInv, Enabled, Next, Course, ConfigOk, Erased;
  }

  /** A pass with a range before it that the read does not need. */
  lemma PassesBy(c: Config, p: nat, m: map<int, byte>, off: int, n: nat, back: int) returns (mvs: seq<Move>, d: Config)
    requires ConfigOk(c) && c.w.ops == map[] && AllFirm(c.w, m, off, n)
    requires p in c.passes && c.passes[p].Listed? && c.passes[p].hole == None && c.passes[p].left != []
    requires var r := c.passes[p].left[0]; Span(r.off, r.end) !! Span(off, off + n)
    ensures Course(c, mvs, d, off, n, back) && ConfigOk(d) && d.w.ops == map[] && AllFirm(d.w, m, off, n)
    ensures p in d.passes && d.passes[p] == Listed(c.passes[p].left[1..], None)
  {
    var r := c.passes[p].left[0];
    var e := DiscardRange(0, r.off, r.end);
    hide WInv, Enabled, Next, Course, ConfigOk, Firm, Discard, Erased;
    d := DiscardOfPass(c, p, off, n, back);
    mvs := [DiscardNext(p, 0)];
    forall x | off <= x < off + n
      ensures x in m && Firm(d.w, x, m[x])
    {
      FirmIsHolding(c.w, x, m[x]);
      assert x in Span(off, off + n) && x !in Span(r.off, r.end);
      FirmStays(c.w, e, x, m[x]);
    }
    hide AllFirm;
    if 0 in d.w.ops {
      var more, z := HoleOfPass(d, p, d.w.s.file, m, off, n, back);
      CourseThen(c, mvs, d, more, z, off, n, back);
      mvs, d := mvs + more, z;
    }
  }

  lemma FirmIsHolding(w: World, x: int, v: byte)
    requires Firm(w, x, v)
    ensures Holding(w, x, v)
  {
  }

  /** The punch that follows a discard of the pass. */
  lemma HoleOfPass(c: Config, p: nat, file: seq<byte>, m: map<int, byte>, off: int, n: nat, back: int)
    returns (mvs: seq<Move>, d: Config)
    requires ConfigOk(c) && p in c.passes && c.passes[p].Listed? && c.passes[p].hole.Some?
    requires var id := c.passes[p].hole.value;
      id in c.w.ops && c.w.ops[id].Hole? && Punched(c.w.s.file, file, c.w.ops[id].off, c.w.ops[id].end)
    ensures Course(c, mvs, d, off, n, back) && ConfigOk(d) && (AllFirm(c.w, m, off, n) ==> AllFirm(d.w, m, off, n))
    ensures d.w == c.w.(s := c.w.s.(file := file), ops := c.w.ops - {c.passes[p].hole.value})
    ensures d.passes == c.passes[p := Listed(c.passes[p].left, None)]
  {
    var id := c.passes[p].hole.value;
    assert WInv(c.w) by { OkWorld(c); }
    NextPunch(c.w, id, file);
    PunchKeepsOk(c, p, file, back);
    CourseOne(c, PunchNext(p, file), off, n, back);
    hide WInv, Enabled, Next, Course, Punched, ConfigOk, AllFirm;
    mvs, d := [PunchNext(p, file)], Moved(c, PunchNext(p, file), back);
    if AllFirm(c.w, m, off, n) {
      FirmPunched(c.w, id, file, m, off, n);
    }
  }

  /** A pass with a range before it that holds byte x of the read. */
  lemma TakesIt(c: Config, p: nat, x: int, m: map<int, byte>, off: int, n: nat, back: int) returns (mvs: seq<Move>, d: Config)
    requires ConfigOk(c) && c.w.ops == map[] && AllFirm(c.w, m, off, n) && off <= x < off + n
    requires p in c.passes && c.passes[p].Listed? && c.passes[p].hole == None && c.passes[p].left != []
    requires var r := c.passes[p].left[0]; r.off <= x < r.end
    ensures Course(c, mvs, d, off, n, back) && Spoilt(d.w, m, off, n)
  {
    var r := c.passes[p].left[0];
    hide WInv, Enabled, Next, Course, ConfigOk, AllFirm, Discard, Erased, Spoilt, Punched;
    d := DiscardOfPass(c, p, off, n, back);
    mvs := [DiscardNext(p, 0)];
    FirmAt(c.w, m, off, n, x);
    FirmAt(c.w, m, off, n, off + n - 1);
    assert x in c.w.s.onDisk * Span(r.off, r.end);
    var file := d.w.s.file;
    var g := file[x := if file[x] == 0 then 1 else 0];
    assert Punched(file, g, r.off, r.end) by { HolePunched(file, g, r.off, r.end, x); }
    var more, z := HoleOfPass(d, p, g, m, off, n, back);
    CourseThen(c, mvs, d, more, z, off, n, back);
    mvs, d := mvs + more, z;
    SpoiltAt(d.w, m, off, n, x);
  }

  lemma FirmAt(w: World, m: map<int, byte>, off: int, n: nat, x: int)
    requires WInv(w) && AllFirm(w, m, off, n) && off <= x < off + n
    ensures x in m && 0 <= x < |w.s.file| && w.s.file[x] == m[x] && x in w.s.onDisk
  {
    hide WInv;
    FirmInFile(w, x, m[x]);
  }

  lemma HolePunched(f: seq<byte>, g: seq<byte>, off: int, end: int, x: int)
    requires off <= x < end && 0 <= x < |f| && (g == f[x := 0] || g == f[x := 1])
    ensures Punched(f, g, off, end)
  {
  }

  lemma SpoiltAt(w: World, m: map<int, byte>, off: int, n: nat, x: int)
    requires off + n <= |w.s.file| && 0 <= x && off <= x < off + n && x in m && w.s.file[x] != m[x]
    ensures Spoilt(w, m, off, n)
  {
  }

  /** With nothing in flight, a pass goes through its list until it takes a byte of the read. */
  lemma {:induction false} PassSpoils(c: Config, p: nat, m: map<int, byte>, off: int, n: nat, back: int)
    returns (mvs: seq<Move>, d: Config)
    requires ConfigOk(c) && c.w.ops == map[] && AllFirm(c.w, m, off, n)
    requires p in c.passes && c.passes[p].Listed? && c.passes[p].hole == None && Threatens(c.passes[p], off, n)
    ensures Course(c, mvs, d, off, n, back) && Spoilt(d.w, m, off, n)
    decreases |c.passes[p].left|
  {
    var left := c.passes[p].left;
    assert PassOk(c.w, c.passes[p]);
    BytesEmpty();
    FirstOfList(left);
    var r := left[0];
    hide WInv, Course, Spoilt, AllFirm, Enabled, Next, ConfigOk, Bytes, Canonical;
    if !(Span(r.off, r.end) !! Span(off, off + n)) {
      var x :| x in Span(r.off, r.end) && x in Span(off, off + n);
      mvs, d := TakesIt(c, p, x, m, off, n, back);
    } else {
      var first, mid := PassesBy(c, p, m, off, n, back);
      var rest;
      rest, d := PassSpoils(mid, p, m, off, n, back);
      CourseThen(c, first, mid, rest, d, off, n, back);
      mvs := first + rest;
    }
  }

  /** A pass that threatens the read can spoil it, whatever it had done when the read began. */
  lemma ThreatSpoils(c: Config, p: nat, off: int, n: nat, back: int) returns (mvs: seq<Move>, d: Config)
    requires ConfigOk(c) && p in c.passes && Threatens(c.passes[p], off, n)
    requires 0 <= off && 0 < n && AllFirm(c.w, c.w.m, off, n)
    ensures Course(c, mvs, d, off, n, back) && Spoilt(d.w, c.w.m, off, n)
  {
    var m := c.w.m;
    var mid: Config;
    hide WInv, Course, Spoilt, AllFirm, Canonical;
    mvs, mid := AllOpsDone(c, m, off, n, back);
    var at := mid;
    if mid.passes[p].Sampled? {
      var ceiling := mid.passes[p].ceiling;
      var present := ListOf(mid.w.s.ranges, ceiling);
      at := Listing(mid, p, present, m, off, n, back);
      CourseThen(c, mvs, mid, [ListPresent(p, present)], at, off, n, back);
      mvs := mvs + [ListPresent(p, present)];
    }
    hide ConfigOk;
    assert at.passes[p].hole == None by { NoHole(at, p); }
    var rest;
    rest, d := PassSpoils(at, p, m, off, n, back);
    CourseThen(c, mvs, at, rest, d, off, n, back);
    mvs := mvs + rest;
  }

  lemma NoHole(c: Config, p: nat)
    requires ConfigOk(c) && c.w.ops == map[] && p in c.passes && c.passes[p].Listed?
    ensures c.passes[p].hole == None
  {
    assert PassOk(c.w, c.passes[p]);
  }

  /** The list that a threatening pass takes holds the read's first byte. */
  lemma Listing(c: Config, p: nat, present: seq<Extent>, m: map<int, byte>, off: int, n: nat, back: int) returns (d: Config)
    requires ConfigOk(c) && AllFirm(c.w, m, off, n) && 0 <= off && 0 < n
    requires p in c.passes && c.passes[p].Sampled? && Threatens(c.passes[p], off, n)
    requires Canonical(present) && Bytes(present) == c.w.s.ranges * Span(0, c.passes[p].ceiling)
    ensures Course(c, [ListPresent(p, present)], d, off, n, back) && ConfigOk(d) && d.w == c.w
    ensures p in d.passes && d.passes[p] == Listed(present, None) && Threatens(d.passes[p], off, n)
  {
    assert WInv(c.w) by { OkWorld(c); }
    CourseOne(c, ListPresent(p, present), off, n, back);
    ListKeepsOk(c, p, present, back);
    d := Moved(c, ListPresent(p, present), back);
    assert Firm(c.w, off, m[off]);
    assert Agrees(c.w.s, c.w.m, Loose(c.w), off);
    hide ConfigOk, WInv, Course, Firm, ByteAt, Bytes;
    assert off in Bytes(present) && off in Span(off, off + n);
    assert off in Bytes(present) * Span(off, off + n);
  }

  /**
   A fast read that begins as the contract asks - its bytes present, whole and marked
   fast, the head published so that they lie inside the window - returns the map's bytes
   whatever else goes on, if and only if no pass under way is still to discard some of
   them: one that has listed them, or one that sampled, before the head was published,
   a head whose ceiling lies above the read's offset.
   */
  lemma FastReadHoldsIff(c: Config, off: int, n: nat, back: int)
    requires ConfigOk(c) && Covered(c, off, back)
    requires 0 <= off && 0 < n && AllFast(c.w.s, off, n) && Span(off, off + n) !! Loose(c.w)
    ensures
      (forall mvs, d :: FastRead(c, mvs, d, off, n, back) ==> ReadFast(d.w.s, off, n) == Lookup(c.w.m, off, n))
      <==> Quiet(c, off, n)
  {
    AllFastIsFirm(c.w, off, n);
    hide WInv;
    if Quiet(c, off, n) {
      forall mvs, d | FastRead(c, mvs, d, off, n, back)
        ensures ReadFast(d.w.s, off, n) == Lookup(c.w.m, off, n)
      {
        QuietReadHolds(c, mvs, d, off, n, back);
      }
    } else {
      var p :| p in c.passes && Threatens(c.passes[p], off, n);
      var mvs, d := ThreatSpoils(c, p, off, n, back);
      SpoiltRead(c, mvs, d, off, n, back);
    }
  }

  lemma AllFastIsFirm(w: World, off: int, n: nat)
    requires WInv(w) && AllFast(w.s, off, n) && Span(off, off + n) !! Loose(w)
    ensures AllFirm(w, w.m, off, n) && Span(off, off + n) <= w.m.Keys
  {
    hide WInv, Loose, Firm;
    forall x | off <= x < off + n
      ensures x in w.m && Firm(w, x, w.m[x])
    {
      assert x in Span(off, off + n);
      FastIsFirm(w, x);
    }
  }

  lemma SpoiltRead(c: Config, mvs: seq<Move>, d: Config, off: int, n: nat, back: int)
    requires Course(c, mvs, d, off, n, back) && AllFast(c.w.s, off, n) && Spoilt(d.w, c.w.m, off, n) && 0 <= off
    ensures FastRead(c, mvs, d, off, n, back) && ReadFast(d.w.s, off, n) != Lookup(c.w.m, off, n)
  {
    CourseNone(c, off, n, back);
    hide Course;
    assert mvs[0..] == mvs && mvs[..0] == [];
    forall x | off <= x < off + n
      ensures LoadedFast(c, mvs, d, off, n, back, x)
    {
      assert x in Span(off, off + n);
      assert 0 <= 0 <= |mvs| && Course(c, mvs[..0], c, off, n, back) && Course(c, mvs[0..], d, off, n, back);
    }
    var x :| 0 <= x && off <= x < off + n && x in c.w.m && d.w.s.file[x] != c.w.m[x];
    var read, told := ReadFast(d.w.s, off, n), Lookup(c.w.m, off, n);
    if told.Data? {
      assert read.bytes[x - off] != told.bytes[x - off];
    }
  }

  /**
   Publishing the head first, as the contract asks, comes too late for a pass that has
   sampled: after a forward read head, a sample, and a seek back to off, the read at off
   keeps to the contract and can still be handed the contents of a hole.
   */
  lemma SeekBackTooLate(c: Config, p: nat, off: int, n: nat, back: int)
    requires ConfigOk(c) && p !in c.passes && back >= 0 && c.head > 0 && c.head - back > off
    requires 0 <= off && 0 < n && AllFast(c.w.s, off, n) && Span(off, off + n) !! Loose(c.w)
    ensures
      var sampled := Moved(c, SampleHead(p), back);
      var z := Moved(sampled, SetHead(off), back);
      && CanMove(c, SampleHead(p), back) && z.w == c.w && Covered(z, off, back)
      && exists mvs, d :: FastRead(z, mvs, d, off, n, back) && ReadFast(d.w.s, off, n) != Lookup(c.w.m, off, n)
  {
    var sampled := Moved(c, SampleHead(p), back);
    MoveKeepsOk(c, SampleHead(p), back);
    MoveKeepsOk(sampled, SetHead(off), back);
    var z := Moved(sampled, SetHead(off), back);
    assert Threatens(z.passes[p], off, n);
    hide ConfigOk, WInv, FastRead, ReadFast, Lookup, AllFast;
    FastReadHoldsIff(z, off, n, back);
  }

  /** It happens: one block read back from an earlier session, a read head past it, and a seek back to its start. */
  lemma SeekBackHappens() returns (c: Config)
    ensures ConfigOk(c) && c.passes == map[] && AllFast(c.w.s, 0, 1) && Span(0, 1) !! Loose(c.w)
    ensures CanMove(c, SampleHead(0), 0)
    ensures
      var z := Moved(Moved(c, SampleHead(0), 0), SetHead(0), 0);
      && Covered(z, 0, 0)
      && exists mvs, d :: FastRead(z, mvs, d, 0, 1, 0) && ReadFast(d.w.s, 0, 1) != Lookup(c.w.m, 0, 1)
  {
    var file := seq(BLOCK, _ => 7 as byte);
    var w := OpenWorld(file, BLOCK, Span(0, BLOCK));
    OpenSound(file, BLOCK, Span(0, BLOCK));
    c := Config(w, BLOCK, map[]);
    assert 0 in w.s.fast && AlignDown(0) == 0;
    hide WInv;
    assert AllFast(w.s, 0, 1) && Loose(w) == {};
    SeekBackTooLate(c, 0, 0, 1, 0);
  }
}
