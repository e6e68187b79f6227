/**
 The calls under way on one heap buffer, taken apart into their locked sections and
 the file operations between them. Sections of different calls follow each other in
 any order; what the caller contract of internal/buffer/buffer.go:156-159 adds is that
 calls under way at the same time are about disjoint ranges.
 */
module BufferCalls {
  import opened Extents
  import opened BufferSpec
  import opened BufferSteps
  import opened BufferRuns
  import opened BufferReads
  import opened BufferImpl

  /** Where a write is: at a region's start, or with that region sampled as write-through. */
  datatype Stage = Between | Sampled | Stored

  /**
   A write with its first `done` bytes written, or a discard whose locked section is
   over and whose hole is still to be punched.
   */
  datatype Call =
    | Writing(off: int, src: seq<byte>, done: nat, stage: Stage)
    | Punching(off: int, length: nat)

  /** The end of the range a call keeps to itself. */
  function End(c: Call): int {
    c.off + if c.Writing? then |c.src| else c.length
  }

  /** Nobody but call id is busy in [lo, hi). */
  predicate Vacant(calls: map<nat, Call>, id: nat, lo: int, hi: int) {
    forall j :: j in calls && j != id ==> End(calls[j]) <= lo || hi <= calls[j].off
  }

  /** A write with a region left to do. */
  predicate AtWork(c: Call) {
    c.Writing? && 0 <= c.off && c.done < |c.src|
  }

  /** Where that region begins. */
  function At(c: Call): int
    requires AtWork(c)
  {
    c.off + c.done
  }

  /** How much of src is done once it is. */
  function Cut(c: Call): (n: nat)
    requires AtWork(c)
    ensures c.done < n <= |c.src|
  {
    var left := AlignDown(At(c)) + BLOCK - c.off;
    if |c.src| < left then |c.src| else left
  }

  function Part(c: Call): (part: seq<byte>)
    requires AtWork(c)
  {
    c.src[c.done..Cut(c)]
  }

  lemma PartIsRegion(c: Call)
    requires AtWork(c)
    ensures
      var o := AlignDown(At(c));
      && Region(o, At(c) - o, Part(c)) && |Part(c)| == Cut(c) - c.done
      && c.off <= At(c) < At(c) + |Part(c)| <= End(c)
  {
  }

  predicate HasOp(c: Call) {
    c.Punching? || (AtWork(c) && c.stage != Between)
  }

  /** The operation in flight a call stands for. */
  function OpOf(c: Call): Op
    requires HasOp(c)
  {
    if c.Writing? then Through(AlignDown(At(c)), At(c) - AlignDown(At(c)), Part(c), c.stage == Stored)
    else Hole(c.off, c.off + c.length)
  }

  lemma SameRegion(c: Call, stage: Stage)
    requires AtWork(c) && stage != Between
    ensures var c' := c.(stage := stage);
      OpOf(c') == Through(AlignDown(At(c)), At(c) - AlignDown(At(c)), Part(c), stage == Stored)
  {
  }

  /** The bytes a write has done are in the map, and are whole. */
  ghost predicate Landed(w: World, off: int, src: seq<byte>, done: nat) {
    done <= |src| &&
      forall x :: off <= x < off + done ==> x in w.m && w.m[x] == src[x - off] && x !in w.torn
  }

  ghost predicate CallOk(w: World, id: nat, c: Call) {
    && 0 <= c.off
    && (c.Writing? ==> Landed(w, c.off, c.src, c.done) && (c.stage != Between ==> c.done < |c.src|))
    && (if HasOp(c) then id in w.ops && w.ops[id] == OpOf(c) else id !in w.ops)
  }

  ghost predicate CallsOk(w: World, calls: map<nat, Call>) {
    && (forall id :: id in calls ==> CallOk(w, id, calls[id]))
    && (forall id :: id in w.ops ==> id in calls)
    && (forall id :: id in calls ==> Vacant(calls, id, calls[id].off, End(calls[id])))
  }

  // ---- what a step of one call leaves the others -------------------------------

  /** The step changed nothing outside [lo, hi), and no operation but id's. */
  ghost predicate Only(w: World, z: World, id: nat, lo: int, hi: int) {
    && (forall x :: !(lo <= x < hi) ==>
        (x in z.m <==> x in w.m) && (x in w.m ==> z.m[x] == w.m[x]) && (x in z.torn ==> x in w.torn))
    && (forall j :: j != id ==> (j in z.ops <==> j in w.ops) && (j in w.ops ==> z.ops[j] == w.ops[j]))
  }

  lemma OthersKeep(w: World, calls: map<nat, Call>, z: World, id: nat, lo: int, hi: int)
    requires CallsOk(w, calls) && Only(w, z, id, lo, hi) && Vacant(calls, id, lo, hi)
    ensures forall j :: j in calls && j != id ==> CallOk(z, j, calls[j])
  {
    hide OpOf, HasOp, Cut, Vacant;
    forall j | j in calls && j != id
      ensures CallOk(z, j, calls[j])
    {
      assert CallOk(w, j, calls[j]);
      assert End(calls[j]) <= lo || hi <= calls[j].off by { VacantOf(calls, id, lo, hi, j); }
    }
  }

  lemma VacantOf(calls: map<nat, Call>, id: nat, lo: int, hi: int, j: nat)
    requires Vacant(calls, id, lo, hi) && j in calls && j != id
    ensures End(calls[j]) <= lo || hi <= calls[j].off
  {
  }

  /** Call id moves on to c, keeping to a range that is its own. */
  lemma CallMoves(w: World, calls: map<nat, Call>, z: World, id: nat, c: Call)
    requires CallsOk(w, calls) && Only(w, z, id, c.off, End(c)) && Vacant(calls, id, c.off, End(c))
    requires CallOk(z, id, c)
    ensures CallsOk(z, calls[id := c])
  {
    OthersKeep(w, calls, z, id, c.off, End(c));
    var more := calls[id := c];
    hide CallOk, End;
    forall j | j in more
      ensures CallOk(z, j, more[j]) && Vacant(more, j, more[j].off, End(more[j]))
    {
      assert j != id ==> Vacant(calls, j, calls[j].off, End(calls[j]));
    }
  }

  /** Call id is over, having kept to [lo, hi). */
  lemma CallEnds(w: World, calls: map<nat, Call>, z: World, id: nat, lo: int, hi: int)
    requires CallsOk(w, calls) && Only(w, z, id, lo, hi) && Vacant(calls, id, lo, hi) && id !in z.ops
    ensures CallsOk(z, calls - {id})
  {
    OthersKeep(w, calls, z, id, lo, hi);
    hide CallOk, End;
    forall j | j in calls - {id}
      ensures Vacant(calls - {id}, j, calls[j].off, End(calls[j]))
    {
      assert Vacant(calls, j, calls[j].off, End(calls[j]));
    }
  }

  lemma OwnCall(w: World, calls: map<nat, Call>, id: nat)
    requires CallsOk(w, calls) && id in calls
    ensures CallOk(w, id, calls[id]) && Vacant(calls, id, calls[id].off, End(calls[id]))
  {
  }

  lemma VacantIsClear(w: World, calls: map<nat, Call>, id: nat, lo: int, hi: int)
    requires CallsOk(w, calls) && Vacant(calls, id, lo, hi) && id !in w.ops
    ensures Clear(w, Span(lo, hi))
  {
    forall j | j in w.ops
      ensures Foot(w.ops[j]) !! Span(lo, hi)
    {
      assert CallOk(w, j, calls[j]);
      if calls[j].Writing? {
        PartIsRegion(calls[j]);
      }
    }
  }

  /** What a finished write has written is nobody's loose byte. */
  lemma LandedIsFirm(w: World, calls: map<nat, Call>, id: nat)
    requires CallsOk(w, calls) && id in calls && calls[id].Writing? && calls[id].done == |calls[id].src|
    ensures var c := calls[id];
      Span(c.off, End(c)) !! Loose(w) && Lookup(w.m, c.off, |c.src|) == Data(c.src)
  {
    var c := calls[id];
    assert CallOk(w, id, c) && Vacant(calls, id, c.off, End(c));
    forall x | x in Span(c.off, End(c))
      ensures x !in Loose(w)
    {
      if x in InFlight(w.ops) {
        var j :| j in w.ops && w.ops[j].Through? && x in Foot(w.ops[j]);
        VacantIsClear(w, calls, id, c.off, End(c));
        assert false;
      }
    }
    var got := seq(|c.src|, i requires 0 <= i < |c.src| => if c.off + i in w.m then w.m[c.off + i] else 0);
    assert got == c.src;
  }

  // ---- the run so far --------------------------------------------------------------

  ghost predicate Story(start: World, es: seq<Event>, w: World) {
    WInv(start) && Run(start, es, w)
  }

  lemma StoryHolds(start: World, es: seq<Event>, w: World)
    requires Story(start, es, w)
    ensures WInv(w)
  {
    RunKeeps(start, es, w);
  }

  lemma {:induction false} RunOn(w: World, es: seq<Event>, z: World, fs: seq<Event>, v: World)
    requires Run(w, es, z) && Run(z, fs, v)
    ensures Run(w, es + fs, v)
    decreases |es|
  {
    hide WInv, Enabled, Next;
    if es == [] {
      assert es + fs == fs;
    } else {
      RunOn(Next(w, es[0]), es[1..], z, fs, v);
      assert (es + fs)[1..] == es[1..] + fs;
    }
  }

  /** A section's evictions, flushes and loads. */
  lemma StoryDoes(start: World, es: seq<Event>, w: World, tr: seq<Event>, t: State)
    requires Story(start, es, w) && Does(w.s, tr, t)
    ensures Story(start, es + tr, w.(s := t))
  {
    hide Run, WInv, Does;
    StoryHolds(start, es, w);
    DoesIsRun(w, tr, t);
    RunOn(start, es, w, tr, w.(s := t));
  }

  lemma StoryStep(start: World, es: seq<Event>, w: World, e: Event)
    requires Story(start, es, w) && Enabled(w, e)
    ensures WInv(w) && Story(start, es + [e], Next(w, e))
  {
    hide Run, WInv, Enabled;
    StoryHolds(start, es, w);
    RunThen(start, es, w, e);
  }

  // ---- each section, as a step of the run -------------------------------------------

  ghost function CachedOf(c: Call): Event
    requires AtWork(c)
  {
    CachedWrite(AlignDown(At(c)), At(c) - AlignDown(At(c)), Part(c))
  }

  function Advanced(c: Call): Call
    requires AtWork(c)
  {
    Writing(c.off, c.src, Cut(c), Between)
  }

  /** The next region is written: in RAM, or published after its pwrite. */
  lemma Lands(w: World, z: World, c: Call)
    requires AtWork(c) && Landed(w, c.off, c.src, c.done)
    requires z.m == Written(w.m, At(c), Part(c)) && z.torn <= w.torn - Span(At(c), At(c) + |Part(c)|)
    ensures Landed(z, c.off, c.src, Cut(c))
  {
    PartIsRegion(c);
  }

  lemma WrittenOnly(w: World, z: World, id: nat, c: Call)
    requires AtWork(c) && z.m == Written(w.m, At(c), Part(c)) && z.torn <= w.torn
    requires forall j :: j != id ==> (j in z.ops <==> j in w.ops) && (j in w.ops ==> z.ops[j] == w.ops[j])
    ensures Only(w, z, id, c.off, End(c))
  {
    PartIsRegion(c);
  }

  /** Nobody else is at work on the bytes of a write's next region, nor is the write itself. */
  lemma RegionIsClear(w: World, calls: map<nat, Call>, id: nat)
    requires CallsOk(w, calls) && id in calls && AtWork(calls[id]) && calls[id].stage == Between
    ensures var c := calls[id]; id !in w.ops && Clear(w, Span(At(c), At(c) + |Part(c)|))
  {
    var c := calls[id];
    hide CallsOk, Part, Cut, Vacant, Clear, Span, Landed;
    OwnCall(w, calls, id);
    VacantIsClear(w, calls, id, c.off, End(c));
    PartIsRegion(c);
    ClearLess(w, c.off, End(c), At(c), At(c) + |Part(c)|);
  }

  lemma CanCache(w: World, calls: map<nat, Call>, id: nat)
    requires CallsOk(w, calls) && id in calls && AtWork(calls[id]) && calls[id].stage == Between
    requires AlignDown(At(calls[id])) in w.s.blocks
    ensures Enabled(w, CachedOf(calls[id]))
  {
    hide CallsOk, Part, Cut, Vacant, Clear, Span, AlignDown;
    RegionIsClear(w, calls, id);
    PartIsRegion(calls[id]);
  }

  lemma ClearLess(w: World, lo: int, hi: int, lo': int, hi': int)
    requires Clear(w, Span(lo, hi)) && lo <= lo' && hi' <= hi
    ensures Clear(w, Span(lo', hi'))
  {
    assert Span(lo', hi') <= Span(lo, hi);
  }

  /** The write's next region has landed, and it has no operation in flight any more. */
  lemma RegionLands(w: World, calls: map<nat, Call>, id: nat, z: World)
    requires CallsOk(w, calls) && id in calls && AtWork(calls[id]) && id !in z.ops
    requires forall j :: j != id ==> (j in z.ops <==> j in w.ops) && (j in w.ops ==> z.ops[j] == w.ops[j])
    requires
      var c := calls[id];
      z.m == Written(w.m, At(c), Part(c)) && z.torn == w.torn - Span(At(c), At(c) + |Part(c)|)
    ensures CallsOk(z, calls[id := Advanced(calls[id])])
  {
    var c := calls[id];
    hide CallsOk, CallOk, Landed, Part, Cut, Written, Vacant, Only, Span;
    OwnCall(w, calls, id);
    LandedOf(w, id, c);
    Lands(w, z, c);
    TornLess(w.torn, z.torn, Span(At(c), At(c) + |Part(c)|));
    WrittenOnly(w, z, id, c);
    LandedIsOk(z, id, c);
    CallMoves(w, calls, z, id, Advanced(c));
  }

  lemma LandedOf(w: World, id: nat, c: Call)
    requires CallOk(w, id, c) && c.Writing?
    ensures Landed(w, c.off, c.src, c.done)
  {
  }

  lemma TornLess(torn: set<int>, left: set<int>, gone: set<int>)
    requires left == torn - gone
    ensures left <= torn
  {
  }

  lemma CachedStep(w: World, calls: map<nat, Call>, id: nat, z: World)
    requires CallsOk(w, calls) && id in calls && AtWork(calls[id]) && calls[id].stage == Between
    requires
      var c := calls[id];
      && z.ops == w.ops && z.m == Written(w.m, At(c), Part(c))
      && z.torn == w.torn - Span(At(c), At(c) + |Part(c)|)
    ensures CallsOk(z, calls[id := Advanced(calls[id])])
  {
    hide CallsOk, AlignDown, Part, Cut, Written;
    OwnCall(w, calls, id);
    RegionLands(w, calls, id, z);
  }

  /** The cached section, taken as steps of the run: its internal ones, then the write if it came to that. */
  lemma CachedDone(start: World, es: seq<Event>, w: World, calls: map<nat, Call>, id: nat, tr: seq<Event>, mid: State,
                   done: bool)
    returns (past: seq<Event>, z: World)
    requires Story(start, es, w) && CallsOk(w, calls) && id in calls && AtWork(calls[id]) && calls[id].stage == Between
    requires Does(w.s, tr, mid) && (done ==> AlignDown(At(calls[id])) in mid.blocks)
    ensures Story(start, past, z) && es <= past
    ensures CallsOk(z, if done then calls[id := Advanced(calls[id])] else calls - {id})
    ensures !done ==> z.s == mid && z.m == w.m && z.torn == w.torn
    ensures done ==>
      var c := calls[id];
      z.s == WriteInto(mid, AlignDown(At(c)), At(c) - AlignDown(At(c)), Part(c)) && z.m == Written(w.m, At(c), Part(c))
  {
    hide Story, CallsOk, AlignDown, Part, Cut, WriteInto, Written, Does, Enabled, Next, WInv;
    var c := calls[id];
    StoryDoes(start, es, w, tr, mid);
    SameCalls(w, calls, mid);
    past, z := es + tr, w.(s := mid);
    if done {
      var e := CachedOf(c);
      CanCache(z, calls, id);
      StoryStep(start, past, z, e);
      NextCached(z, AlignDown(At(c)), At(c) - AlignDown(At(c)), Part(c));
      CachedStep(z, calls, id, Next(z, e));
      past, z := past + [e], Next(z, e);
    } else {
      EndStep(z, calls, id);
    }
  }

  /** A write is entered, a finished one leaves. */
  lemma StartStep(w: World, calls: map<nat, Call>, id: nat, off: int, src: seq<byte>)
    requires CallsOk(w, calls) && id !in calls && off >= 0 && Vacant(calls, id, off, off + |src|)
    ensures CallsOk(w, calls[id := Writing(off, src, 0, Between)])
  {
    CallMoves(w, calls, w, id, Writing(off, src, 0, Between));
  }

  lemma EndStep(w: World, calls: map<nat, Call>, id: nat)
    requires CallsOk(w, calls) && id in calls && !HasOp(calls[id])
    ensures CallsOk(w, calls - {id})
  {
    assert CallOk(w, id, calls[id]) && Vacant(calls, id, calls[id].off, End(calls[id]));
    CallEnds(w, calls, w, id, calls[id].off, End(calls[id]));
  }

  /** Only the state under the lock changed. */
  lemma SameCalls(w: World, calls: map<nat, Call>, s: State)
    requires CallsOk(w, calls)
    ensures CallsOk(w.(s := s), calls)
  {
    var z := w.(s := s);
    forall id | id in calls
      ensures CallOk(z, id, calls[id])
    {
      assert CallOk(w, id, calls[id]);
    }
    hide CallOk;
  }

  ghost function BeginOf(id: nat, c: Call): Event
    requires AtWork(c)
  {
    BeginThrough(id, AlignDown(At(c)), At(c) - AlignDown(At(c)), Part(c))
  }

  lemma CanBegin(w: World, calls: map<nat, Call>, id: nat)
    requires CallsOk(w, calls) && id in calls && AtWork(calls[id]) && calls[id].stage == Between
    requires AlignDown(At(calls[id])) !in w.s.blocks
    ensures Enabled(w, BeginOf(id, calls[id]))
  {
    hide CallsOk, Part, Cut, Vacant, Clear, Span, AlignDown;
    RegionIsClear(w, calls, id);
    PartIsRegion(calls[id]);
  }

  /** A write's operation in flight changes its stage, and nothing else does. */
  lemma StageMoves(w: World, calls: map<nat, Call>, id: nat, stage: Stage, z: World)
    requires CallsOk(w, calls) && id in calls && AtWork(calls[id]) && stage != Between
    requires z.m == w.m && z.torn == w.torn && z.ops == w.ops[id := OpOf(calls[id].(stage := stage))]
    ensures CallsOk(z, calls[id := calls[id].(stage := stage)])
  {
    hide CallsOk, CallOk, OpOf, Vacant, Only;
    OwnCall(w, calls, id);
    StageIsOk(w, z, id, calls[id], stage);
    CallMoves(w, calls, z, id, calls[id].(stage := stage));
  }

  lemma StageIsOk(w: World, z: World, id: nat, c: Call, stage: Stage)
    requires AtWork(c) && stage != Between && CallOk(w, id, c)
    requires z.m == w.m && z.torn == w.torn && z.ops == w.ops[id := OpOf(c.(stage := stage))]
    ensures CallOk(z, id, c.(stage := stage)) && Only(w, z, id, c.off, End(c))
  {
    hide OpOf;
  }

  /** A sampled write's operation can only be its own. */
  lemma SampledOp(w: World, calls: map<nat, Call>, id: nat)
    requires CallsOk(w, calls) && id in calls && HasOp(calls[id])
    ensures id in w.ops && w.ops[id] == OpOf(calls[id])
  {
    assert CallOk(w, id, calls[id]);
  }

  lemma TornEnds(w: World, calls: map<nat, Call>, id: nat, z: World)
    requires CallsOk(w, calls) && id in calls && AtWork(calls[id]) && calls[id].stage == Sampled
    requires z.m == w.m && z.torn == w.torn + Foot(OpOf(calls[id])) && z.ops == w.ops - {id}
    ensures CallsOk(z, calls - {id})
  {
    hide CallsOk, CallOk, OpOf, Vacant, Only, Foot;
    OwnCall(w, calls, id);
    TornOnly(w, z, id, calls[id]);
    CallEnds(w, calls, z, id, calls[id].off, End(calls[id]));
  }

  lemma TornOnly(w: World, z: World, id: nat, c: Call)
    requires AtWork(c) && c.stage == Sampled
    requires z.m == w.m && z.torn == w.torn + Foot(OpOf(c)) && z.ops == w.ops - {id}
    ensures Only(w, z, id, c.off, End(c))
  {
    PartIsRegion(c);
    hide AlignDown, Part, Cut;
  }

  lemma PublishedStep(w: World, calls: map<nat, Call>, id: nat, z: World)
    requires CallsOk(w, calls) && id in calls && AtWork(calls[id]) && calls[id].stage == Stored
    requires
      var c := calls[id];
      && z.m == Written(w.m, At(c), Part(c)) && z.ops == w.ops - {id}
      && z.torn == w.torn - Span(At(c), At(c) + |Part(c)|)
    ensures CallsOk(z, calls[id := Advanced(calls[id])])
  {
    RegionLands(w, calls, id, z);
  }

  lemma LandedIsOk(z: World, id: nat, c: Call)
    requires AtWork(c) && id !in z.ops && Landed(z, c.off, c.src, Cut(c))
    ensures CallOk(z, id, Advanced(c))
  {
    hide Cut, Landed;
  }

  lemma CanErase(w: World, calls: map<nat, Call>, id: nat, off: int, length: nat)
    requires CallsOk(w, calls) && id !in calls && off >= 0 && length > 0 && Vacant(calls, id, off, off + length)
    ensures Enabled(w, DiscardRange(id, off, off + length))
  {
    VacantIsClear(w, calls, id, off, off + length);
  }

  lemma ErasedOnly(w: World, z: World, id: nat, off: int, length: nat)
    requires z.m == Erased(w.m, off, off + length) && z.torn == w.torn - Span(off, off + length)
    requires z.ops == w.ops || z.ops == w.ops[id := Hole(off, off + length)]
    ensures Only(w, z, id, off, off + length)
  {
  }

  lemma NoSuchOp(w: World, calls: map<nat, Call>, id: nat)
    requires CallsOk(w, calls) && id !in calls
    ensures id !in w.ops
  {
  }

  lemma PunchingIsOk(z: World, id: nat, off: int, length: nat)
    requires off >= 0 && id in z.ops && z.ops[id] == Hole(off, off + length)
    ensures CallOk(z, id, Punching(off, length))
  {
  }

  lemma ErasedStep(w: World, calls: map<nat, Call>, id: nat, off: int, length: nat, z: World)
    requires CallsOk(w, calls) && id !in calls && off >= 0 && length > 0 && Vacant(calls, id, off, off + length)
    requires z.m == Erased(w.m, off, off + length) && z.torn == w.torn - Span(off, off + length)
    requires z.ops == w.ops || z.ops == w.ops[id := Hole(off, off + length)]
    ensures CallsOk(z, if z.ops == w.ops then calls else calls[id := Punching(off, length)])
  {
    hide CallsOk, CallOk, Vacant, Only, Erased, Span;
    ErasedOnly(w, z, id, off, length);
    if z.ops == w.ops {
      NoSuchOp(w, calls, id);
      CallEnds(w, calls, z, id, off, off + length);
      assert calls - {id} == calls;
    } else {
      PunchingIsOk(z, id, off, length);
      CallMoves(w, calls, z, id, Punching(off, length));
    }
  }

  lemma PunchedStep(w: World, calls: map<nat, Call>, id: nat, z: World)
    requires CallsOk(w, calls) && id in calls && calls[id].Punching?
    requires z.m == w.m && z.torn == w.torn && z.ops == w.ops - {id}
    ensures CallsOk(z, calls - {id})
  {
    var c := calls[id];
    hide Vacant, CallsOk;
    OwnCall(w, calls, id);
    CallEnds(w, calls, z, id, c.off, End(c));
  }

  // ---- the calls on the heap -------------------------------------------------------------

  /** One open buffer and the calls under way on it; the run so far is for speaking about the past. */
  class Traffic {
    const b: Buffer
    var calls: map<nat, Call>
    ghost var start: World
    ghost var es: seq<Event>
    ghost var w: World

    ghost predicate Ready()
      reads *
    {
      b.Valid() && !b.closed && w.s == b.View() && Story(start, es, w) && CallsOk(w, calls)
    }

    constructor (b: Buffer, ghost m: map<int, byte>)
      requires b.Valid() && !b.closed && Inv(b.View(), m, {})
      ensures Ready() && this.b == b && calls == map[] && w == World(b.View(), map[], {}, m) && start == w
    {
      hide Buffer.Valid, Buffer.View, Inv;
      this.b := b;
      calls := map[];
      w := World(b.View(), map[], {}, m);
      start := World(b.View(), map[], {}, m);
      es := [];
      new;
      assert Loose(w) == {};
    }

    /** The buffer is where the run so far has led. */
    lemma Now()
      requires Ready()
      ensures Passed(start, es, w)
    {
      assert es[..|es|] == es;
    }

    /** WriteAt is entered: from here on the range is the call's own. */
    method StartWrite(id: nat, off: int, src: seq<byte>)
      requires Ready() && id !in calls && off >= 0 && src != [] && Vacant(calls, id, off, off + |src|)
      modifies this`calls
      ensures Ready() && calls == old(calls)[id := Writing(off, src, 0, Between)]
    {
      hide Buffer.Valid, Buffer.View, Story, CallsOk, Vacant;
      StartStep(w, calls, id, off, src);
      calls := calls[id := Writing(off, src, 0, Between)];
    }

    /** The cached section at the write's next region. If it fails, so does the call. */
    method CachedSection(id: nat, junk: seq<byte>, readOk: bool) returns (status: Status)
      requires Ready() && id in calls && AtWork(calls[id]) && calls[id].stage == Between && |junk| == BLOCK
      modifies this`calls, this`es, this`w, b.Repr(), b.pool
      ensures Ready() && start == old(start) && old(es) <= es && fresh(b.Repr() - old(b.Repr()))
      ensures status == Done || status == Failed
      ensures status == Done ==>
        && calls == old(calls)[id := Advanced(old(calls[id]))]
        && w.m == Written(old(w).m, At(old(calls[id])), Part(old(calls[id])))
      ensures status == Failed ==> calls == old(calls) - {id} && w.m == old(w).m && w.torn == old(w).torn
      ensures old(b.file.script) == [] && readOk && b.maxBytes >= BLOCK ==> status == Done
    {
      hide Buffer.Valid, Buffer.View, Story, CallsOk, AlignDown, Part, Cut, WriteInto, Written, Does, Enabled, Next, WInv, FillsLast, Loads;
      var c := calls[id];
      PartIsRegion(c);
      var o, part := AlignDown(At(c)), Part(c);
      ghost var tr, mid;
      status, tr, mid := b.WriteCached(o, At(c) - o, part, junk, readOk);
      ghost var past, z := CachedDone(start, es, w, calls, id, tr, mid, status == Done);
      es, w := past, z;
      calls := if status == Done then calls[id := Advanced(c)] else calls - {id};
    }

    /** The sample at a region's start: unless the block can be had in RAM, the write goes through to the file. */
    method SampleRegion(id: nat) returns (through: bool)
      requires Ready() && id in calls && AtWork(calls[id]) && calls[id].stage == Between
      modifies this`calls, this`es, this`w
      ensures Ready() && start == old(start) && old(es) <= es && w.m == old(w).m && w.torn == old(w).torn
      ensures calls == if through then old(calls)[id := old(calls[id]).(stage := Sampled)] else old(calls)
    {
      hide Buffer.Valid, Buffer.View, Story, CallsOk, AlignDown, Part, Cut, Enabled, Next, WInv;
      var c := calls[id];
      var resident, canCache := b.Sample(AlignDown(At(c)));
      through := !(resident || canCache);
      if through {
        CanBegin(w, calls, id);
        SameRegion(c, Sampled);
        StoryStep(start, es, w, BeginOf(id, c));
        NextBegin(w, id, AlignDown(At(c)), At(c) - AlignDown(At(c)), Part(c));
        ghost var z := Next(w, BeginOf(id, c));
        StageMoves(w, calls, id, Sampled, z);
        es, w := es + [BeginOf(id, c)], z;
        calls := calls[id := c.(stage := Sampled)];
      }
    }

    /** The pwrite, with no lock held. If it fails, so does the call, and the region is torn. */
    method PwriteRegion(id: nat) returns (ok: bool)
      requires Ready() && id in calls && AtWork(calls[id]) && calls[id].stage == Sampled
      modifies this`calls, this`es, this`w, b.file
      ensures Ready() && start == old(start) && old(es) <= es && w.m == old(w).m
      ensures ok ==> calls == old(calls)[id := old(calls[id]).(stage := Stored)] && w.torn == old(w).torn
      ensures !ok ==> calls == old(calls) - {id} && w.torn == old(w).torn + Foot(OpOf(old(calls[id])))
      ensures old(b.file.script) == [] ==> ok
    {
      hide Buffer.Valid, Buffer.View, Story, CallsOk, AlignDown, Part, Cut, Enabled, Next, WInv, Patch;
      var c := calls[id];
      SampledOp(w, calls, id);
      SameRegion(c, Stored);
      StoryHolds(start, es, w);
      PartIsRegion(c);
      var n;
      n, ok := b.Pwrite(At(c), Part(c));
      if ok {
        assert Part(c)[..n] == Part(c);
        NextPwrite(w, id);
        StoryStep(start, es, w, Pwrite(id));
        ghost var z := Next(w, Pwrite(id));
        StageMoves(w, calls, id, Stored, z);
        es, w := es + [Pwrite(id)], z;
        calls := calls[id := c.(stage := Stored)];
      } else {
        NextPwriteFails(w, id, n);
        StoryStep(start, es, w, PwriteFails(id, n));
        ghost var z := Next(w, PwriteFails(id, n));
        TornEnds(w, calls, id, z);
        es, w := es + [PwriteFails(id, n)], z;
        calls := calls - {id};
      }
    }

    /** The publish section, after the pwrite. */
    method PublishRegion(id: nat)
      requires Ready() && id in calls && AtWork(calls[id]) && calls[id].stage == Stored
      modifies this`calls, this`es, this`w, b.Repr(), b.pool
      ensures Ready() && start == old(start) && old(es) <= es && fresh(b.Repr() - old(b.Repr()))
      ensures calls == old(calls)[id := Advanced(old(calls[id]))]
      ensures w.m == Written(old(w).m, At(old(calls[id])), Part(old(calls[id])))
    {
      hide Buffer.Valid, Buffer.View, Story, CallsOk, AlignDown, Part, Cut, Written, Enabled, Next, WInv;
      hide BufferSpec.Publish;
      var c := calls[id];
      SampledOp(w, calls, id);
      StoryHolds(start, es, w);
      PartIsRegion(c);
      var status := b.PublishWrite(AlignDown(At(c)), At(c) - AlignDown(At(c)), Part(c));
      NextPublish(w, id);
      StoryStep(start, es, w, PublishThrough(id));
      ghost var z := Next(w, PublishThrough(id));
      PublishedStep(w, calls, id, z);
      es, w := es + [PublishThrough(id)], z;
      calls := calls[id := Advanced(c)];
    }

    /** WriteAt returns: its bytes are in the map, and no byte of its range is loose. */
    method FinishWrite(id: nat) returns (n: nat)
      requires Ready() && id in calls && calls[id].Writing? && calls[id].done == |calls[id].src|
      modifies this`calls
      ensures Ready() && calls == old(calls) - {id}
      ensures
        var c := old(calls[id]);
        n == |c.src| && Span(c.off, c.off + n) !! Loose(w) && Lookup(w.m, c.off, n) == Data(c.src)
    {
      hide Buffer.Valid, Buffer.View, Story, Loose, Lookup;
      LandedIsFirm(w, calls, id);
      n := |calls[id].src|;
      assert !HasOp(calls[id]);
      EndStep(w, calls, id);
      calls := calls - {id};
    }

    /** The locked section of a discard, a caller's or the pool's; its hole, if any, is punched later. */
    method DiscardSection(id: nat, off: int, length: nat) returns (removed: nat, hadDisk: bool)
      requires Ready() && id !in calls && off >= 0 && length > 0 && Vacant(calls, id, off, off + length)
      modifies this`calls, this`es, this`w, b.Repr(), b.pool
      ensures Ready() && start == old(start) && old(es) <= es && fresh(b.Repr() - old(b.Repr()))
      ensures calls == if hadDisk then old(calls)[id := Punching(off, length)] else old(calls)
      ensures w.m == Erased(old(w).m, off, off + length) && w.torn == old(w).torn - Span(off, off + length)
    {
      hide Buffer.Valid, Buffer.View, Story, CallsOk, Enabled, Next, WInv, Discard, Erased, Vacant;
      removed, hadDisk := b.DiscardLocked(off, length);
      CanErase(w, calls, id, off, length);
      StoryStep(start, es, w, DiscardRange(id, off, off + length));
      NextErase(w, id, off, off + length);
      ghost var z := Next(w, DiscardRange(id, off, off + length));
      ErasedStep(w, calls, id, off, length, z);
      es, w := es + [DiscardRange(id, off, off + length)], z;
      if hadDisk {
        calls := calls[id := Punching(off, length)];
      }
    }

    /** The hole is punched, with no lock held. */
    method PunchSection(id: nat, noise: int -> byte)
      requires Ready() && id in calls && calls[id].Punching?
      modifies this`calls, this`es, this`w, b.file
      ensures Ready() && start == old(start) && old(es) <= es && w.m == old(w).m && w.torn == old(w).torn
      ensures calls == old(calls) - {id}
    {
      hide Buffer.Valid, Buffer.View, Story, CallsOk, Enabled, Next, WInv, Punched;
      var c := calls[id];
      SampledOp(w, calls, id);
      StoryHolds(start, es, w);
      PunchFile(c.off, c.length, noise);
      NextPunch(w, id, b.file.bytes);
      StoryStep(start, es, w, PunchHole(id, b.file.bytes));
      ghost var z := Next(w, PunchHole(id, b.file.bytes));
      PunchedStep(w, calls, id, z);
      es, w := es + [PunchHole(id, b.file.bytes)], z;
      calls := calls - {id};
    }

    method PunchFile(off: int, length: int, noise: int -> byte)
      requires b.Valid() && !b.closed
      modifies b.file`bytes
      ensures b.Valid() && Punched(old(b.View()).file, b.View().file, off, off + length)
      ensures b.View() == old(b.View()).(file := b.file.bytes)
    {
      hide Punched, CacheOf, FastSet, Buffer.Cached, Buffer.Tracked;
      b.file.Punch(off, length, noise);
    }

    /** Flush, or the pool's eviction of some blocks. */
    method FlushSection(visit: seq<int>) returns (status: Status)
      requires Ready() && b.blocks.Keys == set o | o in visit
      modifies this`es, this`w, b.Repr()
      ensures Ready() && start == old(start) && old(es) <= es && fresh(b.Repr() - old(b.Repr()))
      ensures w.m == old(w).m && w.torn == old(w).torn && w.ops == old(w).ops
      ensures status == Done ==> forall o :: o in w.s.blocks ==> w.s.blocks[o].dirty == {}
    {
      hide Buffer.Valid, Buffer.View, Story, CallsOk, Does;
      ghost var tr;
      status, tr := b.Flush(visit);
      StoryDoes(start, es, w, tr, b.View());
      SameCalls(w, calls, b.View());
      es, w := es + tr, w.(s := b.View());
    }

    /**
     ReadAt, whatever calls are under way elsewhere: outside loose bytes it succeeds
     exactly when all bytes are present, and returns those last written.
     */
    method Read(off: int, n: nat) returns (status: Status, r: ReadResult)
      requires Ready()
      ensures status == if n > 0 && off < 0 then ErrOutOfRange else Done
      ensures status == Done && n > 0 && Span(off, off + n) !! Loose(w) ==> r == Lookup(w.m, off, n)
    {
      hide Buffer.Valid, Buffer.View, CallsOk, Loose, BufferSpec.Read, Lookup, WInv, Run;
      status, r := b.ReadAt(off, n);
      if off >= 0 && n > 0 && Span(off, off + n) !! Loose(w) {
        ReadsLastWritten(start, es, w, off, n);
      }
    }
  }

  // ---- any sequence of sections ----------------------------------------------------------

  datatype Step =
    | Start(id: nat, off: int, src: seq<byte>)
    | Cache(id: nat, junk: seq<byte>, readOk: bool)
    | Sample(id: nat)
    | Store(id: nat)
    | Announce(id: nat)
    | Finish(id: nat)
    | Erase(id: nat, off: int, length: nat)
    | Punch(id: nat, noise: int -> byte)
    | Flush(visit: seq<int>)
    | Look(off: int, n: nat)

  /** What a read returned. */
  datatype Seen = Seen(off: int, n: nat, r: ReadResult)

  /** The read's bytes were loose, or it answered as the partial map of that moment does. */
  ghost predicate Faithful(a: Seen, w: World) {
    0 <= a.off && 0 < a.n && Span(a.off, a.off + a.n) !! Loose(w) ==> a.r == Lookup(w.m, a.off, a.n)
  }

  /** A step that its call, or the callers' contract, does not allow now is passed over. */
  method Perform(t: Traffic, s: Step) returns (seen: seq<Seen>)
    requires t.Ready()
    modifies t, t.b.Repr(), t.b.pool
    ensures t.Ready() && t.start == old(t.start) && old(t.es) <= t.es && fresh(t.b.Repr() - old(t.b.Repr()))
    ensures forall a :: a in seen ==> Faithful(a, t.w)
  {
    hide Buffer.Valid, Buffer.View, Traffic.Ready, Loose, Lookup;
    seen := [];
    match s {
      case Start(id, off, src) =>
        if id !in t.calls && off >= 0 && src != [] && Vacant(t.calls, id, off, off + |src|) {
          t.StartWrite(id, off, src);
        }
      case Cache(id, junk, readOk) =>
        if id in t.calls && AtWork(t.calls[id]) && t.calls[id].stage == Between && |junk| == BLOCK {
          var status := t.CachedSection(id, junk, readOk);
        }
      case Sample(id) =>
        if id in t.calls && AtWork(t.calls[id]) && t.calls[id].stage == Between {
          var through := t.SampleRegion(id);
        }
      case Store(id) =>
        if id in t.calls && AtWork(t.calls[id]) && t.calls[id].stage == Sampled {
          var ok := t.PwriteRegion(id);
        }
      case Announce(id) =>
        if id in t.calls && AtWork(t.calls[id]) && t.calls[id].stage == Stored {
          t.PublishRegion(id);
        }
      case Finish(id) =>
        if id in t.calls && t.calls[id].Writing? && t.calls[id].done == |t.calls[id].src| {
          var n := t.FinishWrite(id);
        }
      case Erase(id, off, length) =>
        if id !in t.calls && off >= 0 && length > 0 && Vacant(t.calls, id, off, off + length) {
          var removed, hadDisk := t.DiscardSection(id, off, length);
        }
      case Punch(id, noise) =>
        if id in t.calls && t.calls[id].Punching? {
          t.PunchSection(id, noise);
        }
      case Flush(visit) =>
        if t.b.blocks.Keys == (set o | o in visit) {
          var status := t.FlushSection(visit);
        }
      case Look(off, n) =>
        var status, r := t.Read(off, n);
        if status == Done {
          seen := [Seen(off, n, r)];
        }
    }
  }

  /** A moment of the run so far. */
  ghost predicate Passed(start: World, es: seq<Event>, w: World) {
    exists k :: 0 <= k <= |es| && Run(start, es[..k], w)
  }

  lemma PassedStays(start: World, es: seq<Event>, fs: seq<Event>, w: World)
    requires es <= fs && Passed(start, es, w)
    ensures Passed(start, fs, w)
  {
    var k :| 0 <= k <= |es| && Run(start, es[..k], w);
    assert fs[..k] == es[..k];
  }

  /**
   Writes, discards, punches, flushes and reads of one buffer, in any order of their
   sections: each read answers as the partial map of its moment does, and that moment
   is one of a run of BufferRuns from where the buffer began.
   */
  method Drive(t: Traffic, steps: seq<Step>) returns (seen: seq<Seen>, ghost when: seq<World>)
    requires t.Ready()
    modifies t, t.b.Repr(), t.b.pool
    ensures t.Ready() && t.start == old(t.start) && |seen| == |when|
    ensures forall i :: 0 <= i < |seen| ==> Faithful(seen[i], when[i]) && Passed(t.start, t.es, when[i])
  {
    hide Buffer.Valid, Buffer.View, Traffic.Ready, Faithful, Passed;
    seen, when := [], [];
    ghost var mine := t.b.Repr();
    for j := 0 to |steps|
      invariant t.Ready() && t.start == old(t.start) && |seen| == |when|
      invariant forall x :: x in t.b.Repr() ==> x in mine || fresh(x)
      invariant forall i :: 0 <= i < |seen| ==> Faithful(seen[i], when[i]) && Passed(t.start, t.es, when[i])
    {
      ghost var pre, was := t.b.Repr(), t.es;
      label before:
      var more := Perform(t, steps[j]);
      forall x | x in t.b.Repr() && x !in pre
        ensures fresh(x)
      {
        assert x in t.b.Repr() - pre;
        assert fresh@before(x);
      }
      forall i | 0 <= i < |when|
        ensures Passed(t.start, t.es, when[i])
      {
        PassedStays(t.start, was, t.es, when[i]);
      }
      t.Now();
      ghost var now := t.w;
      forall i | 0 <= i < |more|
        ensures Faithful(more[i], now)
      {
        assert more[i] in more;
      }
      seen, when := seen + more, when + seq(|more|, _ => now);
    }
  }
}
