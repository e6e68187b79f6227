/**
 Runs of a Buffer: any number of writers, discards and pool punches whose
 locked sections, pwrites and hole punches interleave in any order, as long as
 operations in flight at the same time work on disjoint bytes (the caller
 contract of internal/buffer/buffer.go:156-159). Evictions, flushes and block
 loads may happen between any two steps.
 */
module BufferRuns {
  import opened Extents
  import opened BufferSpec
  import opened BufferSteps

  /**
   An operation between two of its steps: a write-through that sampled the block
   as not resident, before (inFile false) or after its pwrite; or a discard whose
   hole is still to be punched.
   */
  datatype Op =
    | Through(o: int, lo: int, src: seq<byte>, inFile: bool)
    | Hole(off: int, end: int)

  function Foot(op: Op): set<int> {
    match op
    case Through(o, lo, src, _) => Span(o + lo, o + lo + |src|)
    case Hole(off, end) => Span(off, end)
  }

  /**
   The buffer, the operations in flight, the bytes whose last write-through
   failed half-way and that nothing has rewritten or discarded since, and the
   partial map the completed operations add up to.
   */
  datatype World = World(s: State, ops: map<nat, Op>, torn: set<int>, m: map<int, byte>)

  ghost function InFlight(ops: map<nat, Op>): set<int> {
    set id, x | id in ops && ops[id].Through? && x in Foot(ops[id]) :: x
  }

  /** Bytes the caller contract forbids reading, or whose last write reported an error. */
  ghost function Loose(w: World): set<int> {
    InFlight(w.ops) + w.torn
  }

  ghost predicate Clear(w: World, bytes: set<int>) {
    forall id :: id in w.ops ==> Foot(w.ops[id]) !! bytes
  }

  datatype Event =
    // internal steps of acquireBlockLocked, evictOneLocked and flushBlockLocked
    | Evict(o: int)
    | FlushPart(o: int, lo: int, hi: int, noted: bool)
    | Clean(o: int)
    | Fill(o: int, junk: seq<byte>)
    // the cached path of writeRegion, once its block is resident
    | CachedWrite(o: int, lo: int, src: seq<byte>)
    // the write-through path: sample, pwrite (whole or cut short), publish
    | BeginThrough(id: nat, o: int, lo: int, src: seq<byte>)
    | Pwrite(id: nat)
    | PwriteFails(id: nat, part: nat)
    | PublishThrough(id: nat)
    // discard's locked part, and its punch
    | DiscardRange(id: nat, off: int, end: int)
    | PunchHole(id: nat, file: seq<byte>)

  predicate Region(o: int, lo: int, src: seq<byte>) {
    Aligned(o) && 0 <= o && 0 <= lo < lo + |src| <= BLOCK
  }

  predicate Internal(e: Event) {
    e.Evict? || e.FlushPart? || e.Clean? || e.Fill?
  }

  /** When an internal step may happen. */
  ghost predicate Legal(s: State, e: Event)
    requires Internal(e)
  {
    match e
    case Evict(o) => o in s.blocks && s.blocks[o].dirty == {}
    case FlushPart(o, lo, hi, _) =>
      o in s.blocks && 0 <= o && 0 <= lo < hi <= BLOCK == |s.blocks[o].data| && Span(lo, hi) <= s.blocks[o].dirty
    case Clean(o) => o in s.blocks && Flushed(s, o)
    case Fill(o, junk) => o !in s.blocks && Aligned(o) && 0 <= o && |junk| == BLOCK
  }

  ghost function Do(s: State, e: Event): State
    requires Internal(e) && Legal(s, e)
  {
    match e
    case Evict(o) => Drop(s, o)
    case FlushPart(o, lo, hi, noted) => FlushExtent(s, o, lo, hi, noted)
    case Clean(o) => ClearDirty(s, o)
    case Fill(o, junk) => Load(s, o, junk)
  }

  /** s becomes t by the internal steps es, one after the other. */
  ghost predicate Does(s: State, es: seq<Event>, t: State)
    decreases |es|
  {
    if es == [] then t == s
    else Internal(es[0]) && Legal(s, es[0]) && Does(Do(s, es[0]), es[1..], t)
  }

  /** Nothing is loaded. */
  ghost predicate NoFill(es: seq<Event>) {
    forall i :: 0 <= i < |es| ==> !es[i].Fill?
  }

  /** Nothing is loaded but, perhaps, by the last step. */
  ghost predicate FillsLast(es: seq<Event>) {
    forall i :: 0 <= i < |es| - 1 ==> !es[i].Fill?
  }

  predicate Loads(es: seq<Event>) {
    es != [] && es[|es| - 1].Fill?
  }

  lemma NoneLoads(es: seq<Event>)
    requires NoFill(es)
    ensures FillsLast(es) && !Loads(es)
  {
  }

  lemma LastLoads(es: seq<Event>, o: int, junk: seq<byte>)
    requires NoFill(es)
    ensures FillsLast(es + [Fill(o, junk)]) && Loads(es + [Fill(o, junk)])
  {
  }

  lemma NoFillThen(es: seq<Event>, fs: seq<Event>)
    requires NoFill(es) && NoFill(fs)
    ensures NoFill(es + fs)
  {
  }

  lemma {:induction false} DoesThen(s: State, es: seq<Event>, t: State, fs: seq<Event>, u: State)
    requires Does(s, es, t) && Does(t, fs, u)
    ensures Does(s, es + fs, u)
    decreases |es|
  {
    hide Legal, Do;
    if es == [] {
      assert es + fs == fs;
    } else {
      DoesThen(Do(s, es[0]), es[1..], t, fs, u);
      assert (es + fs)[1..] == es[1..] + fs;
    }
  }

  lemma DoesOne(s: State, es: seq<Event>, t: State, e: Event)
    requires Does(s, es, t) && Internal(e) && Legal(t, e)
    ensures Does(s, es + [e], Do(t, e))
  {
    hide Legal, Do;
    assert [e][1..] == [];
    assert Does(Do(t, e), [], Do(t, e));
    assert Does(t, [e], Do(t, e));
    DoesThen(s, es, t, [e], Do(t, e));
  }

  /** Internal steps keep the invariant, whatever map the buffer stands for. */
  lemma {:induction false} DoesKeeps(s: State, es: seq<Event>, t: State, m: map<int, byte>, loose: set<int>)
    requires Does(s, es, t) && Inv(s, m, loose)
    ensures Inv(t, m, loose)
    decreases |es|
  {
    if es != [] {
      match es[0] {
        case Evict(o) => DropKeeps(s, o, m, loose);
        case FlushPart(o, lo, hi, noted) => FlushExtentKeeps(s, o, lo, hi, noted, m, loose);
        case Clean(o) => ClearDirtyKeeps(s, o, m, loose);
        case Fill(o, junk) => LoadKeeps(s, o, junk, m, loose);
      }
      hide Inv, Legal, Do;
      DoesKeeps(Do(s, es[0]), es[1..], t, m, loose);
    }
  }

  ghost predicate Enabled(w: World, e: Event) {
    var s := w.s;
    match e
    case Evict(_) => Legal(s, e)
    case FlushPart(_, _, _, _) => Legal(s, e)
    case Clean(_) => Legal(s, e)
    case Fill(_, _) => Legal(s, e)
    case CachedWrite(o, lo, src) =>
      o in s.blocks && Region(o, lo, src) && Clear(w, Span(o + lo, o + lo + |src|))
    case BeginThrough(id, o, lo, src) =>
      id !in w.ops && o !in s.blocks && Region(o, lo, src) && Clear(w, Span(o + lo, o + lo + |src|))
    case Pwrite(id) => id in w.ops && w.ops[id].Through? && !w.ops[id].inFile
    case PwriteFails(id, part) => id in w.ops && w.ops[id].Through? && !w.ops[id].inFile && part <= |w.ops[id].src|
    case PublishThrough(id) => id in w.ops && w.ops[id].Through? && w.ops[id].inFile
    case DiscardRange(id, off, end) =>
      id !in w.ops && 0 <= off < end && Clear(w, Span(off, end))
    case PunchHole(id, file) =>
      id in w.ops && w.ops[id].Hole? && Punched(s.file, file, w.ops[id].off, w.ops[id].end)
  }

  ghost function Next(w: World, e: Event): World
    requires WInv(w) && Enabled(w, e)
  {
    var s := w.s;
    match e
    case Evict(_) => w.(s := Do(s, e))
    case FlushPart(_, _, _, _) => w.(s := Do(s, e))
    case Clean(_) => w.(s := Do(s, e))
    case Fill(_, _) => w.(s := Do(s, e))
    case CachedWrite(o, lo, src) =>
      w.(s := WriteInto(s, o, lo, src),
         torn := w.torn - Span(o + lo, o + lo + |src|),
         m := Written(w.m, o + lo, src))
    case BeginThrough(id, o, lo, src) => w.(ops := w.ops[id := Through(o, lo, src, false)])
    case Pwrite(id) =>
      var op := w.ops[id];
      w.(s := s.(file := Patch(s.file, op.o + op.lo, op.src)), ops := w.ops[id := op.(inFile := true)])
    case PwriteFails(id, part) =>
      var op := w.ops[id];
      w.(s := s.(file := Patch(s.file, op.o + op.lo, op.src[..part])),
         ops := w.ops - {id},
         torn := w.torn + Foot(op))
    case PublishThrough(id) =>
      var op := w.ops[id];
      w.(s := Publish(s, op.o, op.lo, op.src),
         ops := w.ops - {id},
         torn := w.torn - Foot(op),
         m := Written(w.m, op.o + op.lo, op.src))
    case DiscardRange(id, off, end) =>
      // Only bytes that reached the file leave a hole to punch.
      w.(s := Discard(s, off, end),
         ops := if s.onDisk * Span(off, end) == {} then w.ops else w.ops[id := Hole(off, end)],
         torn := w.torn - Span(off, end),
         m := Erased(w.m, off, end))
    case PunchHole(id, file) => w.(s := s.(file := file), ops := w.ops - {id})
  }

  /** What an operation in flight can rely on while others run. */
  ghost predicate OpOk(s: State, op: Op) {
    match op
    case Through(o, lo, src, inFile) =>
      && Region(o, lo, src)
      && (forall x :: x in Foot(op) ==> !IsDirty(s, x))
      && (inFile ==> InFile(s.file, o + lo, src))
    case Hole(off, end) =>
      off < end && Foot(op) !! s.ranges
  }

  ghost predicate OpsOk(w: World) {
    && (forall id :: id in w.ops ==> OpOk(w.s, w.ops[id]))
    && (forall i, j :: i in w.ops && j in w.ops && i != j ==> Foot(w.ops[i]) !! Foot(w.ops[j]))
  }

  ghost predicate WInv(w: World) {
    Inv(w.s, w.m, Loose(w)) && OpsOk(w)
  }

  // ---- the invariant is kept ----------------------------------------------

  lemma LooseGrows(s: State, m: map<int, byte>, a: set<int>, b: set<int>)
    requires Inv(s, m, a) && a <= b
    ensures Inv(s, m, b)
  {
    hide Tidy, IsDirty, ByteAt, AlignDown;
    forall x
      ensures Agrees(s, m, b, x)
    {
      assert Agrees(s, m, a, x);
    }
  }

  /** A step that leaves an operation's bytes alone leaves what it relies on. */
  lemma OpCarries(s: State, t: State, op: Op)
    requires OpOk(s, op)
    requires forall x :: x in Foot(op) && IsDirty(t, x) ==> IsDirty(s, x)
    requires |s.file| <= |t.file|
    requires op.Through? && op.inFile ==> forall x :: x in Foot(op) && 0 <= x < |s.file| ==> t.file[x] == s.file[x]
    requires op.Hole? ==> Foot(op) !! t.ranges - s.ranges
    ensures OpOk(t, op)
  {
    hide IsDirty, AlignDown, Aligned;
    if op.Through? && op.inFile {
      forall x | op.o + op.lo <= x < op.o + op.lo + |op.src|
        ensures t.file[x] == op.src[x - (op.o + op.lo)]
      {
        assert x in Foot(op);
      }
    }
  }

  lemma InternalStepKeeps(w: World, e: Event)
    requires WInv(w) && Enabled(w, e) && Internal(e)
    ensures WInv(Next(w, e))
  {
    var s := w.s;
    var t := Next(w, e).s;
    match e {
      case Evict(o) => DropKeeps(s, o, w.m, Loose(w));
      case FlushPart(o, lo, hi, noted) => FlushExtentKeeps(s, o, lo, hi, noted, w.m, Loose(w));
      case Clean(o) => ClearDirtyKeeps(s, o, w.m, Loose(w));
      case Fill(o, junk) => LoadKeeps(s, o, junk, w.m, Loose(w));
    }
    assert Inv(t, w.m, Loose(w));
    hide Inv, IsDirty, Drop, FlushExtent, ClearDirty, Load;
    forall id | id in w.ops
      ensures OpOk(t, w.ops[id])
    {
      OpCarries(s, t, w.ops[id]);
    }
  }

  lemma CachedWriteKeeps(w: World, e: Event)
    requires WInv(w) && Enabled(w, e) && e.CachedWrite?
    ensures WInv(Next(w, e))
  {
    hide Inv, IsDirty, WriteInto, Written, Next, Clear, OpsOk, Loose, Span;
    var bytes := Span(e.o + e.lo, e.o + e.lo + |e.src|);
    NextCached(w, e.o, e.lo, e.src);
    WriteIntoKeeps(w.s, e.o, e.lo, e.src, w.m, Loose(w));
    WriteIntoParts(w.s, e.o, e.lo, e.src);
    WrittenKeeps(w, Next(w, e), bytes);
  }

  /** A write under the lock into bytes nobody else works on. */
  lemma WrittenKeeps(w: World, n: World, bytes: set<int>)
    requires OpsOk(w) && Clear(w, bytes) && Inv(n.s, n.m, Loose(w) - bytes)
    requires n.ops == w.ops && n.torn == w.torn - bytes
    requires n.s.file == w.s.file && n.s.ranges == w.s.ranges + bytes
    requires forall x :: IsDirty(n.s, x) <==> IsDirty(w.s, x) || x in bytes
    ensures WInv(n)
  {
    hide Inv, IsDirty;
    assert Loose(w) - bytes <= Loose(n);
    LooseGrows(n.s, n.m, Loose(w) - bytes, Loose(n));
    forall id | id in w.ops
      ensures OpOk(n.s, w.ops[id])
    {
      assert Foot(w.ops[id]) !! bytes;
      OpCarries(w.s, n.s, w.ops[id]);
    }
  }

  lemma WriteIntoParts(s: State, o: int, lo: int, src: seq<byte>)
    requires o in s.blocks && 0 <= lo
    ensures
      var t := WriteInto(s, o, lo, src);
      t.file == s.file && t.ranges == s.ranges + Span(o + lo, o + lo + |src|)
  {
  }

  lemma BeginKeeps(w: World, e: Event)
    requires WInv(w) && Enabled(w, e) && e.BeginThrough?
    ensures WInv(Next(w, e))
  {
    var n := Next(w, e);
    var op := n.ops[e.id];
    forall x | x in Foot(op)
      ensures !IsDirty(w.s, x)
    {
      AlignUnique(e.o, x);
    }
    hide Inv, IsDirty, AlignDown, Aligned;
    assert Loose(w) <= Loose(n) by {
      forall x | x in InFlight(w.ops)
        ensures x in InFlight(n.ops)
      {
        var id :| id in w.ops && w.ops[id].Through? && x in Foot(w.ops[id]);
        assert n.ops[id] == w.ops[id];
      }
    }
    LooseGrows(w.s, w.m, Loose(w), Loose(n));
    ClearIsDisjoint(w, e.id, op);
  }

  lemma ClearIsDisjoint(w: World, id: nat, op: Op)
    requires OpsOk(w) && id !in w.ops && Clear(w, Foot(op))
    ensures
      var ops := w.ops[id := op];
      forall i, j :: i in ops && j in ops && i != j ==> Foot(ops[i]) !! Foot(ops[j])
  {
  }

  /** Bytes of the file change only under one write-through in flight. */
  lemma PwriteBytes(w: World, id: nat, part: seq<byte>, t: State)
    requires WInv(w) && id in w.ops && w.ops[id].Through? && |part| <= |w.ops[id].src|
    requires t == w.s.(file := Patch(w.s.file, w.ops[id].o + w.ops[id].lo, part))
    requires Foot(w.ops[id]) <= Loose(w)
    ensures Inv(t, w.m, Loose(w))
    ensures forall j :: j in w.ops && j != id ==> OpOk(t, w.ops[j])
    ensures forall x :: IsDirty(t, x) <==> IsDirty(w.s, x)
    ensures part == w.ops[id].src ==> InFile(t.file, w.ops[id].o + w.ops[id].lo, part)
  {
    var op := w.ops[id];
    var off := op.o + op.lo;
    assert OpOk(w.s, op);
    PatchKeeps(w.s, off, part, w.m, Loose(w));
    hide Loose, Patch, OpOk, Inv, IsDirty;
    forall x
      ensures |w.s.file| <= |t.file|
      ensures 0 <= x < |w.s.file| && x !in Foot(op) ==> t.file[x] == w.s.file[x]
    {
      PatchAt(w.s.file, off, part, x);
    }
    forall j | j in w.ops && j != id
      ensures OpOk(t, w.ops[j])
    {
      assert Foot(w.ops[j]) !! Foot(op);
      OpCarries(w.s, t, w.ops[j]);
    }
  }

  lemma InFlightHas(ops: map<nat, Op>, id: nat)
    requires id in ops && ops[id].Through?
    ensures Foot(ops[id]) <= InFlight(ops)
  {
    forall x | x in Foot(ops[id])
      ensures x in InFlight(ops)
    {
    }
  }

  /** Finishing its pwrite gives an operation what its publish step relies on. */
  lemma WrittenOpOk(s: State, t: State, op: Op)
    requires OpOk(s, op) && op.Through? && InFile(t.file, op.o + op.lo, op.src)
    requires forall x :: IsDirty(t, x) <==> IsDirty(s, x)
    ensures OpOk(t, op.(inFile := true)) && Foot(op.(inFile := true)) == Foot(op)
  {
    hide IsDirty, Aligned;
    assert Foot(op.(inFile := true)) == Foot(op);
  }

  lemma SameFeetSameFlight(a: map<nat, Op>, b: map<nat, Op>)
    requires forall id :: id in a && a[id].Through? ==> id in b && b[id].Through? && Foot(b[id]) == Foot(a[id])
    ensures InFlight(a) <= InFlight(b)
  {
    forall x | x in InFlight(a)
      ensures x in InFlight(b)
    {
      var id :| id in a && a[id].Through? && x in Foot(a[id]);
      assert x in Foot(b[id]);
    }
  }

  lemma PwriteKeeps(w: World, e: Event)
    requires WInv(w) && Enabled(w, e) && e.Pwrite?
    ensures WInv(Next(w, e))
  {
    hide Inv, IsDirty, Patch, OpOk, Foot, Next, InFile, InFlight;
    var op := w.ops[e.id];
    assert OpOk(w.s, op);
    NextPwrite(w, e.id);
    var n := Next(w, e);
    InFlightHas(w.ops, e.id);
    PwriteBytes(w, e.id, op.src, n.s);
    WrittenOpOk(w.s, n.s, op);
    StoredKeeps(w, n, e.id);
  }

  /** An operation whose bytes are now in the file. */
  lemma StoredKeeps(w: World, n: World, id: nat)
    requires WInv(w) && id in w.ops && w.ops[id].Through? && Inv(n.s, w.m, Loose(w))
    requires n.ops == w.ops[id := w.ops[id].(inFile := true)] && n.torn == w.torn && n.m == w.m
    requires Foot(n.ops[id]) == Foot(w.ops[id]) && OpOk(n.s, n.ops[id])
    requires forall j :: j in w.ops && j != id ==> OpOk(n.s, w.ops[j])
    ensures WInv(n)
  {
    hide Inv, OpOk, Foot;
    SameFeetSameFlight(w.ops, n.ops);
    LooseGrows(n.s, n.m, Loose(w), Loose(n));
  }

  lemma PwriteFailsKeeps(w: World, e: Event)
    requires WInv(w) && Enabled(w, e) && e.PwriteFails?
    ensures WInv(Next(w, e))
  {
    var op := w.ops[e.id];
    var n := Next(w, e);
    NextPwriteFails(w, e.id, e.part);
    InFlightHas(w.ops, e.id);
    PwriteBytes(w, e.id, op.src[..e.part], n.s);
    hide Inv, IsDirty, Patch, OpOk, Foot, Next, Enabled, InFile;
    assert Loose(w) <= Loose(n) by {
      forall x | x in InFlight(w.ops) && x !in Foot(op)
        ensures x in InFlight(n.ops)
      {
        WithoutOp(w.ops, e.id, x);
      }
    }
    LooseGrows(n.s, n.m, Loose(w), Loose(n));
  }

  lemma WithoutOp(ops: map<nat, Op>, id: nat, x: int)
    requires id in ops && x in InFlight(ops) && x !in Foot(ops[id])
    ensures x in InFlight(ops - {id})
  {
    var j :| j in ops && ops[j].Through? && x in Foot(ops[j]);
    assert j in ops - {id} && (ops - {id})[j] == ops[j];
  }

  /** Publishing one write-through leaves what the others rely on. */
  lemma PublishSparesOps(w: World, id: nat, t: State)
    requires OpsOk(w) && id in w.ops
    requires t.file == w.s.file && t.ranges == w.s.ranges + Foot(w.ops[id])
    requires forall x :: IsDirty(t, x) ==> IsDirty(w.s, x) || x in Foot(w.ops[id])
    ensures forall j :: j in w.ops && j != id ==> OpOk(t, w.ops[j])
  {
    hide IsDirty, AlignDown, Aligned;
    forall j | j in w.ops && j != id
      ensures OpOk(t, w.ops[j])
    {
      assert Foot(w.ops[j]) !! Foot(w.ops[id]);
      OpCarries(w.s, t, w.ops[j]);
    }
  }

  lemma PublishOp(s: State, op: Op, m: map<int, byte>, loose: set<int>)
    requires Inv(s, m, loose) && OpOk(s, op) && op.Through? && op.inFile
    ensures op.lo >= 0
    ensures
      var t := Publish(s, op.o, op.lo, op.src);
      && Inv(t, Written(m, op.o + op.lo, op.src), loose - Foot(op))
      && t.file == s.file && t.ranges == s.ranges + Foot(op)
      && (forall x :: IsDirty(t, x) ==> IsDirty(s, x) || x in Foot(op))
  {
    hide Inv, Publish, Written, IsDirty, Aligned;
    PublishKeeps(s, op.o, op.lo, op.src, m, loose);
    PublishParts(s, op.o, op.lo, op.src);
  }

  lemma PublishThroughKeeps(w: World, e: Event)
    requires WInv(w) && Enabled(w, e) && e.PublishThrough?
    ensures WInv(Next(w, e))
  {
    hide Inv, IsDirty, Publish, Written, OpOk, Foot;
    var op := w.ops[e.id];
    var n := Next(w, e);
    assert OpOk(w.s, op);
    PublishOp(w.s, op, w.m, Loose(w));
    PublishSparesOps(w, e.id, n.s);
    assert Loose(w) - Foot(op) <= Loose(n) by {
      forall x | x in InFlight(w.ops) && x !in Foot(op)
        ensures x in InFlight(n.ops)
      {
        WithoutOp(w.ops, e.id, x);
      }
    }
    LooseGrows(n.s, n.m, Loose(w) - Foot(op), Loose(n));
  }

  lemma DiscardRangeKeeps(w: World, e: Event)
    requires WInv(w) && Enabled(w, e) && e.DiscardRange?
    ensures WInv(Next(w, e))
  {
    var bytes := Span(e.off, e.end);
    var n := Next(w, e);
    NextErase(w, e.id, e.off, e.end);
    DiscardKeeps(w.s, e.off, e.end, w.m, Loose(w));
    assert n.s.file == w.s.file && n.s.ranges == w.s.ranges - bytes;
    hide Inv, IsDirty, Discard, Erased, AlignDown, Aligned, Next;
    assert Loose(w) - bytes <= Loose(n) by {
      forall x | x in Loose(w) - bytes
        ensures x in Loose(n)
      {
        if x in InFlight(w.ops) {
          var id :| id in w.ops && w.ops[id].Through? && x in Foot(w.ops[id]);
          assert id in n.ops && n.ops[id] == w.ops[id];
        }
      }
    }
    LooseGrows(n.s, n.m, Loose(w) - bytes, Loose(n));
    forall id | id in w.ops
      ensures OpOk(n.s, w.ops[id])
    {
      OpCarries(w.s, n.s, w.ops[id]);
    }
    ClearIsDisjoint(w, e.id, Hole(e.off, e.end));
  }

  lemma PunchHoleKeeps(w: World, e: Event)
    requires WInv(w) && Enabled(w, e) && e.PunchHole?
    ensures WInv(Next(w, e))
  {
    var op := w.ops[e.id];
    var n := Next(w, e);
    assert OpOk(w.s, op);
    PunchKeeps(w.s, e.file, op.off, op.end, w.m, Loose(w));
    hide Inv, IsDirty, AlignDown, Aligned;
    assert Loose(w) <= Loose(n) by {
      forall x | x in InFlight(w.ops)
        ensures x in InFlight(n.ops)
      {
        var id :| id in w.ops && w.ops[id].Through? && x in Foot(w.ops[id]);
        assert id in n.ops && n.ops[id] == w.ops[id];
      }
    }
    LooseGrows(n.s, n.m, Loose(w), Loose(n));
    forall id | id in n.ops
      ensures OpOk(n.s, n.ops[id])
    {
      assert Foot(w.ops[id]) !! Foot(op);
      OpCarries(w.s, n.s, w.ops[id]);
    }
  }

  lemma StepKeeps(w: World, e: Event)
    requires WInv(w) && Enabled(w, e)
    ensures WInv(Next(w, e))
  {
    hide WInv, Enabled, Next;
    match e
    case Evict(_) => InternalStepKeeps(w, e);
    case FlushPart(_, _, _, _) => InternalStepKeeps(w, e);
    case Clean(_) => InternalStepKeeps(w, e);
    case Fill(_, _) => InternalStepKeeps(w, e);
    case CachedWrite(_, _, _) => CachedWriteKeeps(w, e);
    case BeginThrough(_, _, _, _) => BeginKeeps(w, e);
    case Pwrite(_) => PwriteKeeps(w, e);
    case PwriteFails(_, _) => PwriteFailsKeeps(w, e);
    case PublishThrough(_) => PublishThroughKeeps(w, e);
    case DiscardRange(_, _, _) => DiscardRangeKeeps(w, e);
    case PunchHole(_, _) => PunchHoleKeeps(w, e);
  }

  // ---- what each step does, one by one ------------------------------------------

  lemma NextCached(w: World, o: int, lo: int, src: seq<byte>)
    requires WInv(w) && Enabled(w, CachedWrite(o, lo, src))
    ensures
      var z := Next(w, CachedWrite(o, lo, src));
      && z.s == WriteInto(w.s, o, lo, src) && z.ops == w.ops
      && z.m == Written(w.m, o + lo, src) && z.torn == w.torn - Span(o + lo, o + lo + |src|)
  {
    hide WInv, WriteInto, Written;
  }

  lemma NextBegin(w: World, id: nat, o: int, lo: int, src: seq<byte>)
    requires WInv(w) && Enabled(w, BeginThrough(id, o, lo, src))
    ensures Next(w, BeginThrough(id, o, lo, src)) == w.(ops := w.ops[id := Through(o, lo, src, false)])
  {
    hide WInv;
  }

  lemma OpIsOk(w: World, id: nat)
    requires WInv(w) && id in w.ops
    ensures OpOk(w.s, w.ops[id])
  {
  }

  lemma ThroughRegion(w: World, id: nat)
    requires WInv(w) && id in w.ops && w.ops[id].Through?
    ensures Region(w.ops[id].o, w.ops[id].lo, w.ops[id].src)
  {
    OpIsOk(w, id);
    hide WInv;
  }

  lemma NextPwrite(w: World, id: nat)
    requires WInv(w) && id in w.ops && w.ops[id].Through? && !w.ops[id].inFile
    ensures
      var op := w.ops[id];
      && Enabled(w, Pwrite(id)) && op.o + op.lo >= 0
      && Next(w, Pwrite(id)) ==
         w.(s := w.s.(file := Patch(w.s.file, op.o + op.lo, op.src)), ops := w.ops[id := op.(inFile := true)])
  {
    hide WInv, Patch, Foot;
    ThroughRegion(w, id);
  }

  lemma NextPwriteFails(w: World, id: nat, part: nat)
    requires WInv(w) && id in w.ops && w.ops[id].Through? && !w.ops[id].inFile && part <= |w.ops[id].src|
    ensures
      var op := w.ops[id];
      && Enabled(w, PwriteFails(id, part)) && op.o + op.lo >= 0
      && Next(w, PwriteFails(id, part)) ==
         w.(s := w.s.(file := Patch(w.s.file, op.o + op.lo, op.src[..part])), ops := w.ops - {id}, torn := w.torn + Foot(op))
  {
    hide WInv, Patch, Foot;
    ThroughRegion(w, id);
  }

  lemma NextPublish(w: World, id: nat)
    requires WInv(w) && id in w.ops && w.ops[id].Through? && w.ops[id].inFile
    ensures
      var op := w.ops[id];
      var z := Next(w, PublishThrough(id));
      && Enabled(w, PublishThrough(id)) && Region(op.o, op.lo, op.src)
      && z.s == Publish(w.s, op.o, op.lo, op.src) && z.ops == w.ops - {id}
      && z.m == Written(w.m, op.o + op.lo, op.src) && z.torn == w.torn - Foot(op)
  {
    hide WInv, Publish, Written, Foot;
    ThroughRegion(w, id);
  }

  lemma NextErase(w: World, id: nat, off: int, end: int)
    requires WInv(w) && Enabled(w, DiscardRange(id, off, end))
    ensures
      var z := Next(w, DiscardRange(id, off, end));
      && z.s == Discard(w.s, off, end) && z.m == Erased(w.m, off, end) && z.torn == w.torn - Span(off, end)
      && z.ops == if w.s.onDisk * Span(off, end) == {} then w.ops else w.ops[id := Hole(off, end)]
  {
    hide WInv, Discard, Erased;
  }

  lemma NextPunch(w: World, id: nat, file: seq<byte>)
    requires WInv(w) && id in w.ops && w.ops[id].Hole? && Punched(w.s.file, file, w.ops[id].off, w.ops[id].end)
    ensures Enabled(w, PunchHole(id, file))
    ensures Next(w, PunchHole(id, file)) == w.(s := w.s.(file := file), ops := w.ops - {id})
  {
    hide WInv;
  }

  // ---- whole runs -----------------------------------------------------------

  /** w leads to z through the events es, each enabled when it happens. */
  ghost predicate Run(w: World, es: seq<Event>, z: World)
    decreases |es|
  {
    if es == [] then z == w
    else WInv(w) && Enabled(w, es[0]) && Run(Next(w, es[0]), es[1..], z)
  }

  /** Every run keeps the invariant. */
  lemma {:induction false} RunKeeps(w: World, es: seq<Event>, z: World)
    requires WInv(w) && Run(w, es, z)
    ensures WInv(z)
    decreases |es|
  {
    hide WInv, Enabled, Next;
    if es != [] {
      StepKeeps(w, es[0]);
      RunKeeps(Next(w, es[0]), es[1..], z);
    }
  }

  /** A locked section's internal steps are a piece of a run, whatever else is in flight. */
  lemma {:induction false} DoesIsRun(w: World, es: seq<Event>, t: State)
    requires WInv(w) && Does(w.s, es, t)
    ensures Run(w, es, w.(s := t))
    decreases |es|
  {
    if es != [] {
      InternalStepKeeps(w, es[0]);
      var n := Next(w, es[0]);
      assert n == w.(s := Do(w.s, es[0]));
      hide WInv, Legal, Do;
      DoesIsRun(n, es[1..], t);
      assert n.(s := t) == w.(s := t);
    }
  }

  lemma {:induction false} RunThen(w: World, es: seq<Event>, z: World, e: Event)
    requires Run(w, es, z) && WInv(z) && Enabled(z, e)
    ensures Run(w, es + [e], Next(z, e))
    decreases |es|
  {
    hide WInv, Enabled, Next;
    if es == [] {
      assert [e][1..] == [] && es + [e] == [e];
      assert Run(Next(z, e), [], Next(z, e));
    } else {
      RunThen(Next(w, es[0]), es[1..], z, e);
      assert (es + [e])[1..] == es[1..] + [e];
    }
  }

  /**
   The cached write section, as Buffer.WriteCached performs it (internal steps to
   `mid`, then the write), is a run, whatever disjoint operations are in flight.
   */
  lemma CachedSectionIsRun(w: World, tr: seq<Event>, mid: State, o: int, lo: int, src: seq<byte>)
    requires WInv(w) && Does(w.s, tr, mid) && o in mid.blocks && Region(o, lo, src)
    requires Clear(w, Span(o + lo, o + lo + |src|))
    ensures
      var e := CachedWrite(o, lo, src);
      var v := w.(s := mid);
      WInv(v) && Enabled(v, e) && Run(w, tr + [e], Next(v, e)) && Next(v, e).s == WriteInto(mid, o, lo, src)
  {
    var e := CachedWrite(o, lo, src);
    var v := w.(s := mid);
    DoesIsRun(w, tr, mid);
    RunKeeps(w, tr, v);
    assert Clear(v, Span(o + lo, o + lo + |src|));
    assert Enabled(v, e);
    hide Run, WInv, Enabled;
    RunThen(w, tr, v, e);
  }
}
