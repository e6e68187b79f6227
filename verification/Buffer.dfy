/**
 internal/buffer/buffer.go: the buffer itself, on the heap. Each method is one
 locked section (or the whole call, when nothing else runs in between) and is
 proved to change the state the way BufferSpec says.
 */
module BufferImpl {
  import opened Extents
  import opened BufferSpec
  import opened BufferSteps
  import opened BufferRuns
  import opened BufferAges
  import opened Blocks
  import opened Lru
  import opened DiscardSteps
  import BufferReads

  /** The counters of internal/buffer/pool.go every buffer of a pool shares. */
  class Pool {
    const memBudget: int
    var memInUse: int
    var diskInUse: int

    constructor (memBudget: int)
      ensures this.memBudget == memBudget && memInUse == 0 && diskInUse == 0
    {
      this.memBudget := memBudget;
      memInUse := 0;
      diskInUse := 0;
    }

    predicate WouldExceedMemory()
      reads this
    {
      memBudget > 0 && memInUse + BLOCK > memBudget
    }

    predicate Within()
      reads this
    {
      memBudget > 0 ==> memInUse <= memBudget
    }
  }

  /** How the operating system will answer a pwrite: in full, or cut short with an error. */
  datatype Outcome = Full | CutShort(n: nat)

  /** The backing file. script says how its next pwrites end; past its end they succeed. */
  class Disk {
    var bytes: seq<byte>
    var script: seq<Outcome>

    constructor (bytes: seq<byte>, script: seq<Outcome>)
      ensures this.bytes == bytes && this.script == script
    {
      this.bytes := bytes;
      this.script := script;
    }

    method WriteAt(off: int, src: seq<byte>) returns (n: nat, ok: bool)
      requires off >= 0
      modifies this
      ensures n <= |src| && (ok ==> n == |src|)
      ensures bytes == Patch(old(bytes), off, src[..n])
      ensures old(script) == [] ==> ok && script == []
    {
      n := |src|;
      ok := true;
      if script != [] {
        if script[0].CutShort? {
          ok := false;
          n := if script[0].n < |src| then script[0].n else |src|;
        }
        script := script[1..];
      }
      bytes := Patch(bytes, off, src[..n]);
    }

    /** punchHole: the size stays; what reads back from the hole is anyone's guess. */
    method Punch(off: int, length: int, noise: int -> byte)
      modifies this`bytes
      ensures Punched(old(bytes), bytes, off, off + length)
    {
      var f := bytes;
      bytes := seq(|f|, i requires 0 <= i < |f| => if off <= i < off + length then noise(i) else f[i]);
    }
  }

  /** The block offsets whose slot is stateFastDisk. */
  function FastSet(states: seq<bool>): set<int> {
    set i | 0 <= i < |states| && states[i] :: i * BLOCK
  }

  lemma FastSetUpdate(states: seq<bool>, i: nat, v: bool)
    requires i < |states|
    ensures FastSet(states[i := v]) == if v then FastSet(states) + {i * BLOCK} else FastSet(states) - {i * BLOCK}
  {
    var u := states[i := v];
    forall o
      ensures o in FastSet(u) <==> if v then o in FastSet(states) + {i * BLOCK} else o in FastSet(states) - {i * BLOCK}
    {
      if o in FastSet(u) {
        var j :| 0 <= j < |u| && u[j] && j * BLOCK == o;
        assert j != i ==> states[j];
      }
      if o in FastSet(states) && o != i * BLOCK {
        var j :| 0 <= j < |states| && states[j] && j * BLOCK == o;
        assert u[j];
      }
      if v && o == i * BLOCK {
        assert u[i];
      }
    }
  }

  lemma SlotIndex(o: int, n: nat)
    requires Aligned(o)
    ensures 0 <= o / BLOCK < n <==> 0 <= o < n * BLOCK
    ensures o / BLOCK * BLOCK == o
  {
  }

  lemma SlotsAligned(n: nat)
    ensures forall o :: o in Span(0, n * BLOCK) && Aligned(o) ==> 0 <= o / BLOCK < n && o / BLOCK * BLOCK == o
    ensures forall i :: 0 <= i < n ==> Aligned(i * BLOCK) && i * BLOCK in Span(0, n * BLOCK) && i * BLOCK / BLOCK == i
  {
  }

  lemma SeededFast(states: seq<bool>, seeds: set<int>)
    requires forall i :: 0 <= i < |states| ==> (states[i] <==> FullyPresent(seeds, i * BLOCK))
    ensures FastSet(states) == set o | o in Span(0, |states| * BLOCK) && Aligned(o) && FullyPresent(seeds, o)
  {
    SlotsAligned(|states|);
    hide Aligned, FullyPresent;
    forall o | o in Span(0, |states| * BLOCK) && Aligned(o) && FullyPresent(seeds, o)
      ensures o in FastSet(states)
    {
      assert states[o / BLOCK];
    }
  }

  ghost function BlkOf(b: Block): Blk {
    Blk(b.data, Bytes(b.dirty))
  }

  ghost function CacheOf(blocks: map<int, Block>): map<int, Blk> {
    map o | o in blocks :: BlkOf(blocks[o])
  }

  ghost predicate BlockOk(o: int, b: Block) {
    0 <= o && Aligned(o) && |b.data| == BLOCK && Canonical(b.dirty) && Bytes(b.dirty) <= Span(0, BLOCK)
  }

  ghost predicate BlocksOk(blocks: map<int, Block>) {
    forall o :: o in blocks ==> BlockOk(o, blocks[o])
  }

  datatype Status = Done | Failed | ErrClosed | ErrOutOfRange

  class Buffer {
    const pool: Pool
    const file: Disk
    const maxBytes: int
    const lru: LruList
    var blocks: map<int, Block>
    var bytesInRAM: int
    var ranges: RangeSet
    var onDisk: RangeSet
    var states: seq<bool>        // stateFastDisk per slot
    var diskBytes: int
    var readHead: int
    var closed: bool

    ghost predicate Tracked()
      reads this`ranges, this`onDisk, this`diskBytes, ranges, onDisk
    {
      ranges != onDisk && ranges.Valid() && onDisk.Valid() && diskBytes == |ranges.Contents()|
    }

    ghost predicate Cached()
      reads this`blocks, this`bytesInRAM, lru, lru.repr
    {
      lru.Valid() && lru.nodes.Keys == blocks.Keys && BlocksOk(blocks) && bytesInRAM == BLOCK * |blocks|
    }

    ghost predicate Valid()
      reads this, ranges, onDisk, lru, lru.repr
    {
      Cached() && Tracked()
    }

    /** What the buffer holds, as BufferSpec sees it. */
    ghost function View(): State
      reads this, ranges, onDisk, file, lru
    {
      State(CacheOf(blocks), lru.Offsets(), ranges.Contents(), onDisk.Contents(), file.bytes, FastSet(states), |states|)
    }

    /** Every object that is this buffer's alone. */
    ghost function Repr(): set<object>
      reads this, lru
    {
      {this, lru, ranges, onDisk, file} + lru.repr
    }

    // ---- construction ---------------------------------------------------------

    constructor (pool: Pool, file: Disk, maxBytes: int, slots: nat)
      ensures Valid() && blocks == map[] && lru.Offsets() == [] && !closed && readHead == 0
      ensures this.pool == pool && this.file == file && this.maxBytes == maxBytes && |states| == slots
      ensures lru.repr == {} && fresh(lru) && fresh(ranges) && fresh(onDisk) && ranges.Contents() == {} && onDisk.Contents() == {}
    {
      this.pool := pool;
      this.file := file;
      this.maxBytes := maxBytes;
      lru := new LruList();
      blocks := map[];
      bytesInRAM := 0;
      ranges := new RangeSet();
      onDisk := new RangeSet();
      states := seq(slots, _ => false);
      diskBytes := 0;
      readHead := 0;
      closed := false;
    }

    /** A buffer with nothing in it, on objects of its own. */
    static method Blank(pool: Pool, file: Disk, maxBytes: int, slots: nat) returns (b: Buffer)
      ensures b.Valid() && b.blocks == map[] && b.lru.Offsets() == [] && !b.closed && b.readHead == 0
      ensures b.pool == pool && b.file == file && b.maxBytes == maxBytes && |b.states| == slots
      ensures b.ranges.Contents() == {} && b.onDisk.Contents() == {}
      ensures fresh(b) && fresh(b.ranges) && fresh(b.onDisk) && fresh(b.Repr() - {file})
    {
      hide Buffer.Valid;
      b := new Buffer(pool, file, maxBytes, slots);
    }

    /**
     newBuffer. initial holds Config.InitialRanges, overlapping or out of order as
     they come; the file is first cut or extended to TotalSize when it is set. A
     negative TotalSize is refused.
     */
    static method New(pool: Pool, file: Disk, memorySize: int, total: int, initial: seq<Extent>) returns (b: Buffer?)
      modifies pool`diskInUse, file`bytes
      ensures b == null <==> total < 0
      ensures b == null ==> pool.diskInUse == old(pool.diskInUse) && file.bytes == old(file.bytes)
      ensures b != null ==>
        && fresh(b) && fresh(b.Repr() - {file}) && b.Valid() && b.pool == pool && b.file == file && !b.closed && b.readHead == 0
        && b.maxBytes >= BLOCK && (memorySize >= BLOCK ==> b.maxBytes == memorySize)
        && b.View() == BufferReads.Open(old(file.bytes), total, Bytes(initial))
        && pool.diskInUse == old(pool.diskInUse) + |b.View().ranges|
        && b.bytesInRAM == 0 && b.diskBytes == |b.View().ranges|
    {
      hide Bytes, Canonical, Aligned, FastSet, FullyPresent, BufferReads.Truncated, Span;
      if total < 0 {
        return null;
      }
      var maxBytes := if memorySize <= 0 then 32 * BLOCK else if memorySize < BLOCK then BLOCK else memorySize;
      hide Buffer.Repr;
      b := Blank(pool, file, maxBytes, BufferReads.Slots(total));
      file.bytes := BufferReads.Truncated(file.bytes, total);
      b.Seed(initial);
    }

    method Seed(initial: seq<Extent>)
      requires Valid() && blocks == map[] && lru.Offsets() == []
      requires ranges.Contents() == {} && onDisk.Contents() == {}
      modifies ranges, onDisk, this`diskBytes, this`states, pool`diskInUse
      ensures Valid() && |states| == old(|states|) && Repr() == old(Repr())
      ensures pool.diskInUse - old(pool.diskInUse) == diskBytes - old(diskBytes)
      ensures
        var seeds := Bytes(initial);
        var fast := set o | o in Span(0, |states| * BLOCK) && Aligned(o) && FullyPresent(seeds, o);
        View() == State(map[], [], seeds, seeds, file.bytes, fast, |states|)
    {
      hide Bytes, Canonical, Aligned, FastSet, FullyPresent;
      SeedRanges(initial);
      SeedStates();
      SeededFast(states, ranges.Contents());
      assert CacheOf(blocks) == map[];
    }

    /** What an earlier session left in the file counts as present and on disk at once. */
    method SeedRanges(initial: seq<Extent>)
      requires Tracked() && ranges.Contents() == {} && onDisk.Contents() == {}
      modifies ranges, onDisk, this`diskBytes, pool`diskInUse
      ensures Tracked() && ranges.Contents() == onDisk.Contents() == Bytes(initial)
      ensures pool.diskInUse - old(pool.diskInUse) == diskBytes - old(diskBytes)
    {
      hide Bytes, Canonical, Tracked, Span;
      BytesEmpty();
      var i: nat := 0;
      while i < |initial|
        invariant i <= |initial| && Tracked()
        invariant ranges.Contents() == onDisk.Contents() == Bytes(initial[..i])
        invariant pool.diskInUse - old(pool.diskInUse) == diskBytes - old(diskBytes)
      {
        BytesTake(initial, i);
        SeedRange(initial[i]);
        i := i + 1;
      }
      assert initial[..i] == initial;
    }

    method SeedRange(e: Extent)
      requires Tracked() && ranges.Contents() == onDisk.Contents()
      modifies ranges, onDisk, this`diskBytes, pool`diskInUse
      ensures Tracked() && ranges.Contents() == onDisk.Contents() == old(ranges.Contents()) + Span(e.off, e.end)
      ensures pool.diskInUse - old(pool.diskInUse) == diskBytes - old(diskBytes)
    {
      hide Tracked, Span;
      if e.end > e.off {
        RangesInsert(e.off, e.end - e.off);
        OnDiskInsert(e.off, e.end - e.off);
      } else {
        SpanNone(e.off, e.end);
      }
    }

    /** The one-shot walk of newBuffer that seeds the fast-path states. */
    method SeedStates()
      requires Tracked()
      modifies this`states
      ensures |states| == old(|states|)
      ensures forall i :: 0 <= i < |states| ==> (states[i] <==> FullyPresent(ranges.Contents(), i * BLOCK))
    {
      hide Bytes, Canonical, Aligned;
      var j: nat := 0;
      while j < |states|
        invariant j <= |states| == old(|states|)
        invariant forall i :: 0 <= i < j ==> (states[i] <==> FullyPresent(ranges.Contents(), i * BLOCK))
      {
        var p := ranges.Present(j * BLOCK, BLOCK);
        states := states[j := p];
        j := j + 1;
      }
    }

    // ---- trackers -------------------------------------------------------------

    /** rangesInsert: presence, this buffer's footprint and the pool's move together. */
    method RangesInsert(off: int, length: int)
      requires Tracked()
      modifies ranges, this`diskBytes, pool`diskInUse
      ensures Tracked() && ranges.Contents() == old(ranges.Contents()) + Span(off, off + length)
      ensures pool.diskInUse - old(pool.diskInUse) == diskBytes - old(diskBytes)
    {
      var added := ranges.Insert(off, length);
      if added > 0 {
        diskBytes := diskBytes + added;
        pool.diskInUse := pool.diskInUse + added;
      }
    }

    method OnDiskInsert(off: int, length: int)
      requires Tracked()
      modifies onDisk
      ensures Tracked() && onDisk.Contents() == old(onDisk.Contents()) + Span(off, off + length)
    {
      var _ := onDisk.Insert(off, length);
    }

    method OnDiskRemove(off: int, length: int) returns (removed: nat)
      requires Tracked()
      modifies onDisk
      ensures Tracked() && onDisk.Contents() == old(onDisk.Contents()) - Span(off, off + length)
      ensures removed > 0 <==> old(onDisk.Contents()) * Span(off, off + length) != {}
    {
      ghost var was := onDisk.Contents();
      ghost var gone := Span(off, off + length);
      removed := onDisk.Remove(off, length);
      RemoveCount(was, gone);
    }

    /** rangesRemove */
    method RangesRemove(off: int, length: int) returns (removed: nat)
      requires Tracked()
      modifies ranges, this`diskBytes, pool`diskInUse
      ensures Tracked() && ranges.Contents() == old(ranges.Contents()) - Span(off, off + length)
      ensures pool.diskInUse - old(pool.diskInUse) == diskBytes - old(diskBytes) == 0 - removed
    {
      removed := ranges.Remove(off, length);
      if removed > 0 {
        diskBytes := diskBytes - removed;
        pool.diskInUse := pool.diskInUse - removed;
      }
    }

    // ---- slots ----------------------------------------------------------------

    method StoreSlot(o: int, v: bool)
      requires Aligned(o)
      modifies this`states
      ensures View() == SetSlot(old(View()), o, v)
    {
      hide Bytes, Aligned, FastSet;
      var idx := o / BLOCK;
      SlotIndex(o, |states|);
      if 0 <= idx < |states| {
        FastSetUpdate(states, idx, v);
        states := states[idx := v];
      }
    }

    /** markStateForBlockLocked */
    method MarkState(o: int)
      requires Tracked() && Aligned(o)
      modifies this`states
      ensures View() == Mark(old(View()), o)
    {
      hide Bytes, Canonical, Aligned, FastSet, SetSlot;
      ghost var before := View();
      if o in blocks {
        StoreSlot(o, false);
      } else {
        var p := ranges.Present(o, BLOCK);
        assert View() == before && (p <==> o !in before.blocks && FullyPresent(before.ranges, o));
        StoreSlot(o, p);
      }
    }

    // ---- dropping, flushing, evicting -------------------------------------------

    /** The block at o leaves the map and the list. */
    method Detach(o: int)
      requires Cached() && o in blocks
      modifies this`blocks, this`bytesInRAM, pool`memInUse, lru, lru.repr
      ensures Cached() && lru.repr == old(lru.repr)
      ensures CacheOf(blocks) == old(CacheOf(blocks)) - {o}
      ensures lru.Offsets() == Keep(old(lru.Offsets()), old(blocks.Keys) - {o})
      ensures |blocks| == old(|blocks|) - 1 && bytesInRAM == old(bytesInRAM) - BLOCK
      ensures pool.memInUse == old(pool.memInUse) - BLOCK
    {
      hide Bytes, Canonical, Keep, BlocksOk, CacheOf, LruList.Valid, LruList.Offsets;
      CacheKeys(blocks);
      lru.Unlink(o);
      Forget(o);
    }

    method Forget(o: int)
      requires BlocksOk(blocks) && o in blocks
      modifies this`blocks, this`bytesInRAM, pool`memInUse
      ensures BlocksOk(blocks) && blocks.Keys == old(blocks.Keys) - {o} && |blocks| == old(|blocks|) - 1
      ensures CacheOf(blocks) == old(CacheOf(blocks)) - {o}
      ensures bytesInRAM == old(bytesInRAM) - BLOCK && pool.memInUse == old(pool.memInUse) - BLOCK
    {
      hide BlocksOk, CacheOf;
      CacheMinus(blocks, o);
      blocks, bytesInRAM := blocks - {o}, bytesInRAM - BLOCK;
      pool.memInUse := pool.memInUse - BLOCK;
    }

    /** dropBlockLocked; dirty bytes go with the block. */
    method DropBlock(o: int)
      requires Valid() && o in blocks
      modifies this`blocks, this`bytesInRAM, this`states, pool`memInUse, lru, lru.repr
      ensures Valid() && View() == Drop(old(View()), o) && lru.repr == old(lru.repr)
      ensures |blocks| == old(|blocks|) - 1 && bytesInRAM == old(bytesInRAM) - BLOCK
      ensures pool.memInUse == old(pool.memInUse) - BLOCK
    {
      hide Cached, Tracked, Mark, Keep;
      BlockAt(o);
      Detach(o);
      MarkState(o);
    }

    /**
     flushBlockLocked: each dirty extent is written and noted in turn; a failed
     write stops there and leaves the block dirty.
     */
    method FlushBlock(o: int) returns (ok: bool, ghost tr: seq<Event>)
      requires Valid() && o in blocks
      modifies this`blocks, onDisk, file
      ensures Valid() && Does(old(View()), tr, View()) && NoFill(tr)
      ensures blocks.Keys == old(blocks.Keys) && (ok ==> blocks[o].dirty == [])
      ensures forall p :: p in blocks && p != o ==> blocks[p] == old(blocks)[p]
      ensures old(file.script) == [] ==> ok && file.script == []
    {
      hide Bytes, Canonical, Patch, Cached, Tracked, CacheOf, Does, Legal, Do, FlushExtent, FastSet;
      tr := [];
      ghost var before := View();
      DoesNothing(before);
      var blk := blocks[o];
      if blk.dirty == [] {
        return true, tr;
      }
      BlockAt(o);
      BytesEmpty();
      CleanBlockOk(o, blk);
      assert blk.dirty[..0] == [];
      var i: nat := 0;
      while i < |blk.dirty|
        invariant i <= |blk.dirty| && Valid() && blocks == old(blocks)
        invariant View() == before.(file := file.bytes, onDisk := onDisk.Contents())
        invariant Does(before, tr, View()) && NoFill(tr)
        invariant Saved(View(), o, Bytes(blk.dirty[..i]))
        invariant old(file.script) == [] ==> file.script == []
      {
        var ext := blk.dirty[i];
        ghost var s := View();
        DirtyExtent(o, blk, i);
        var n, wrote := file.WriteAt(o + ext.off, blk.data[ext.off..ext.end]);
        if !wrote {
          if n > 0 {
            FlushedTorn(s, o, blk, i, n);
            DoesOne(before, tr, s, FlushPart(o, ext.off, ext.off + n, false));
            tr := tr + [FlushPart(o, ext.off, ext.off + n, false)];
          } else {
            assert blk.data[ext.off..ext.end][..0] == [];
            PatchNothing(s.file, o + ext.off);
          }
          return false, tr;
        }
        assert blk.data[ext.off..ext.end][..n] == blk.data[ext.off..ext.end];
        OnDiskInsert(o + ext.off, ext.end - ext.off);
        FlushedWhole(s, o, blk, i);
        assert View() == Do(s, FlushPart(o, ext.off, ext.end, true));
        DoesOne(before, tr, s, FlushPart(o, ext.off, ext.end, true));
        tr := tr + [FlushPart(o, ext.off, ext.end, true)];
        i := i + 1;
      }
      assert blk.dirty[..i] == blk.dirty;
      SavedAll(View(), o);
      ghost var s := View();
      DoesOne(before, tr, s, Clean(o));
      tr := tr + [Clean(o)];
      ok := true;
      Rewrite(o, blk.(dirty := []));
      assert View() == Do(s, Clean(o));
    }

    /**
     evictOneLocked: the least recently written clean block goes; when every
     block is dirty, the tail is flushed first. Nothing is evicted when the
     cache is empty or that flush fails.
     */
    method EvictOne() returns (evicted: bool, ghost victim: int, ghost tr: seq<Event>)
      requires Valid()
      modifies this`blocks, this`bytesInRAM, this`states, pool`memInUse, lru, lru.repr, onDisk, file
      ensures Valid() && Does(old(View()), tr, View()) && NoFill(tr) && lru.repr == old(lru.repr)
      ensures pool.memInUse - old(pool.memInUse) == bytesInRAM - old(bytesInRAM)
      ensures |blocks| == old(|blocks|) - (if evicted then 1 else 0)
      ensures evicted ==> Victim(old(View()), victim) && View().blocks.Keys == old(View()).blocks.Keys - {victim}
      ensures !evicted ==> View().blocks.Keys == old(View()).blocks.Keys
      ensures old(file.script) == [] ==> file.script == [] && (evicted <==> old(|blocks|) > 0)
    {
      hide Bytes, Canonical, Tracked, CacheOf, Does, FastSet, Cached, Victim;
      Facts();
      DoesNothing(View());
      evicted, victim, tr := false, 0, [];
      var found, o := PickVictim();
      if found {
        evicted, tr := FlushAndDrop(o);
        victim := o;
      }
    }

    /** The last step of evictOneLocked: a block that is still dirty is flushed before it goes. */
    method FlushAndDrop(o: int) returns (dropped: bool, ghost tr: seq<Event>)
      requires Valid() && o in blocks
      modifies this`blocks, this`bytesInRAM, this`states, pool`memInUse, lru, lru.repr, onDisk, file
      ensures Valid() && Does(old(View()), tr, View()) && NoFill(tr) && lru.repr == old(lru.repr)
      ensures pool.memInUse - old(pool.memInUse) == bytesInRAM - old(bytesInRAM)
      ensures |blocks| == old(|blocks|) - (if dropped then 1 else 0)
      ensures View().blocks.Keys == old(View()).blocks.Keys - (if dropped then {o} else {})
      ensures old(file.script) == [] ==> file.script == [] && dropped
    {
      hide Bytes, Canonical, Tracked, CacheOf, Does, Legal, Do, FlushExtent, FastSet, Drop, Cached;
      ghost var before := View();
      Facts();
      DoesNothing(before);
      dropped, tr := true, [];
      if blocks[o].dirty != [] {
        dropped, tr := FlushBlock(o);
        Facts();
        assert |blocks| == |blocks.Keys|;
        if !dropped {
          return;
        }
      }
      EvictLegal(View(), o);
      DoesOne(before, tr, View(), Evict(o));
      tr := tr + [Evict(o)];
      DropBlock(o);
    }

    /** A fresh block enters the map and the front of the list. */
    method Attach(o: int, data: seq<byte>)
      requires Cached() && o !in blocks && BlockOk(o, Block(data, []))
      modifies this`blocks, this`bytesInRAM, pool`memInUse, lru, lru.repr
      ensures Cached() && fresh(lru.repr - old(lru.repr))
      ensures CacheOf(blocks) == old(CacheOf(blocks))[o := BlkOf(Block(data, []))]
      ensures lru.Offsets() == [o] + old(lru.Offsets())
      ensures |blocks| == old(|blocks|) + 1 && bytesInRAM == old(bytesInRAM) + BLOCK
      ensures pool.memInUse == old(pool.memInUse) + BLOCK
    {
      hide Bytes, Canonical, BlocksOk, BlockOk, CacheOf, LruList.Valid, LruList.Offsets;
      var more := blocks[o := Block(data, [])];
      CachePut(blocks, o, Block(data, []));
      lru.PushFront(o);
      blocks, bytesInRAM := more, bytesInRAM + BLOCK;
      pool.memInUse := pool.memInUse + BLOCK;
    }

    /** The end of acquireBlockLocked: allocate, load what the file has, link in front. */
    method InstallBlock(o: int, junk: seq<byte>)
      requires Valid() && o !in blocks && Aligned(o) && 0 <= o && |junk| == BLOCK
      modifies this`blocks, this`bytesInRAM, this`states, pool`memInUse, lru, lru.repr
      ensures Valid() && View() == Load(old(View()), o, junk) && fresh(lru.repr - old(lru.repr))
      ensures |blocks| == old(|blocks|) + 1 && bytesInRAM == old(bytesInRAM) + BLOCK
      ensures pool.memInUse == old(pool.memInUse) + BLOCK
    {
      hide Canonical, Aligned, Cached, Tracked, SetSlot, CacheOf, FastSet, LruList.Offsets, Bytes;
      var f := file.bytes;
      var data := junk;
      TrackedRanges();
      var any := ranges.AnyPresent(o, BLOCK);
      if any {
        data := seq(BLOCK, i requires 0 <= i < BLOCK => if o + i < |f| then f[o + i] else junk[i]);
      }
      assert data == Loaded(View(), o, junk);
      FreshBlockOk(o, data);
      Attach(o, data);
      StoreSlot(o, false);
    }

    lemma TrackedRanges()
      requires Tracked()
      ensures ranges.Valid() && onDisk.Valid() && ranges != onDisk
    {
    }

    /** evictOneLocked's choice; false when nothing is cached. */
    method PickVictim() returns (found: bool, o: int)
      requires Valid()
      ensures found ==> o in blocks && Victim(View(), o)
      ensures found <==> |blocks| > 0
    {
      hide Bytes, Canonical, Tracked, CacheOf, FastSet, Cached, Victim;
      Facts();
      CachedList();
      lru.TailOffset();
      hide LruList.Valid, LruList.Offsets;
      var bs := blocks;
      var clean := (x: int) => x in bs && bs[x].dirty == [];
      found, o := lru.OldestWhere(clean);
      if found {
        VictimFromWalk(View(), clean, true, o);
      } else if lru.tail != null {
        found, o := true, lru.tail.off;
        VictimFromWalk(View(), clean, false, o);
      }
    }

    lemma CachedList()
      requires Cached()
      ensures lru.Valid()
    {
    }

    /** How the fields of a valid buffer show in its View. */
    lemma Facts()
      requires Valid()
      ensures View().blocks.Keys == blocks.Keys
      ensures forall o :: o in blocks ==> (View().blocks[o].dirty == {} <==> blocks[o].dirty == [])
      ensures forall o :: o in View().lru <==> o in blocks
      ensures bytesInRAM == BLOCK * |blocks|
      ensures |blocks| == 0 <==> View().lru == []
    {
      hide Bytes, Canonical, Tracked, FastSet;
      lru.Exact();
      forall o | o in blocks
        ensures View().blocks[o].dirty == {} <==> blocks[o].dirty == []
      {
        DirtyNone(o, blocks[o]);
      }
      NoKeys(blocks, View().lru);
    }

    /**
     acquireBlockLocked for a block that is not resident: make room under the
     per-buffer ceiling and the pool budget, evicting this buffer's own blocks;
     when only the pool is over and nothing is left to evict, allocate anyway.
     */
    method Acquire(o: int, junk: seq<byte>, readOk: bool) returns (ok: bool, ghost tr: seq<Event>)
      requires Valid() && o !in blocks && Aligned(o) && 0 <= o && |junk| == BLOCK
      modifies this`blocks, this`bytesInRAM, this`states, pool`memInUse, lru, lru.repr, onDisk, file
      ensures Valid() && Does(old(View()), tr, View()) && FillsLast(tr) && fresh(lru.repr - old(lru.repr))
      ensures ok <==> o in blocks
      ensures ok <==> Loads(tr)
      ensures if ok then bytesInRAM <= maxBytes else bytesInRAM <= old(bytesInRAM)
      ensures bytesInRAM <= old(bytesInRAM) || bytesInRAM <= maxBytes
      ensures pool.memInUse - old(pool.memInUse) == bytesInRAM - old(bytesInRAM)
      ensures old(file.script) == [] ==> file.script == [] && (readOk && maxBytes >= BLOCK ==> ok)
      ensures ok && old(file.script) == [] ==> pool.Within() || bytesInRAM == BLOCK
    {
      hide Buffer.Valid, Buffer.View, Aligned, Does, Legal, Do, Load, NoFill, FillsLast, Loads;
      ghost var before := View();
      Facts();
      ok, tr := MakeRoom();
      NoneLoads(tr);
      Facts();
      if !ok || !readOk {
        ok := false;
        return;
      }
      FillLegal(View(), o, junk);
      DoesOne(before, tr, View(), Fill(o, junk));
      LastLoads(tr, o, junk);
      tr := tr + [Fill(o, junk)];
      InstallBlock(o, junk);
      Facts();
    }

    /** acquireBlockLocked's eviction loop; it stops as soon as nothing can be evicted. */
    method MakeRoom() returns (ok: bool, ghost tr: seq<Event>)
      requires Valid()
      modifies this`blocks, this`bytesInRAM, this`states, pool`memInUse, lru, lru.repr, onDisk, file
      ensures Valid() && Does(old(View()), tr, View()) && NoFill(tr) && lru.repr == old(lru.repr)
      ensures View().blocks.Keys <= old(View()).blocks.Keys
      ensures ok ==> bytesInRAM + BLOCK <= maxBytes
      ensures bytesInRAM <= old(bytesInRAM)
      ensures pool.memInUse - old(pool.memInUse) == bytesInRAM - old(bytesInRAM)
      ensures ok && pool.WouldExceedMemory() && old(file.script) == [] ==> bytesInRAM == 0
      ensures old(file.script) == [] ==> file.script == [] && (maxBytes >= BLOCK ==> ok)
    {
      hide Bytes, Canonical, Cached, Tracked, CacheOf, Does, FastSet, Victim, Valid;
      ghost var before := View();
      DoesNothing(before);
      tr := [];
      ok := true;
      var evicted := true;
      Sized();
      while evicted && (bytesInRAM + BLOCK > maxBytes || pool.WouldExceedMemory())
        invariant Valid() && Does(before, tr, View()) && NoFill(tr) && lru.repr == old(lru.repr)
        invariant View().blocks.Keys <= before.blocks.Keys
        invariant bytesInRAM <= old(bytesInRAM) && bytesInRAM == BLOCK * |blocks|
        invariant pool.memInUse - old(pool.memInUse) == bytesInRAM - old(bytesInRAM)
        invariant old(file.script) == [] ==> file.script == [] && (!evicted ==> |blocks| == 0)
        decreases |blocks|, evicted
      {
        ghost var s := View();
        ghost var victim, more;
        evicted, victim, more := EvictOne();
        DoesThen(before, tr, s, more, View());
        NoFillThen(tr, more);
        tr := tr + more;
        Sized();
      }
      ok := bytesInRAM + BLOCK <= maxBytes;
    }

    lemma Sized()
      requires Valid()
      ensures bytesInRAM == BLOCK * |blocks|
    {
    }

    /** A resident block gets new contents in place. */
    method Rewrite(o: int, b: Block)
      requires Cached() && o in blocks && BlockOk(o, b)
      modifies this`blocks
      ensures Cached() && CacheOf(blocks) == old(CacheOf(blocks))[o := BlkOf(b)]
      ensures blocks.Keys == old(blocks.Keys) && blocks[o] == b
      ensures forall p :: p in blocks && p != o ==> blocks[p] == old(blocks)[p]
    {
      hide Bytes, Canonical, BlocksOk, BlockOk, CacheOf, LruList.Valid, LruList.Offsets;
      CachePut(blocks, o, b);
      blocks := blocks[o := b];
    }

    // ---- writing ------------------------------------------------------------------

    /** writeIntoBlockLocked */
    method WriteIntoBlock(o: int, lo: int, src: seq<byte>)
      requires Valid() && o in blocks && 0 <= lo < lo + |src| <= BLOCK
      modifies this`blocks, this`states, this`diskBytes, ranges, pool`diskInUse, lru, lru.repr
      ensures Valid() && View() == WriteInto(old(View()), o, lo, src) && lru.repr == old(lru.repr)
      ensures blocks.Keys == old(blocks.Keys)
      ensures pool.diskInUse - old(pool.diskInUse) == diskBytes - old(diskBytes)
    {
      hide Bytes, Canonical, Aligned, Cached, Tracked, SetSlot, CacheOf, FastSet, Patch, ToFront, LruList.Offsets;
      hide BlocksOk, BlockOk, LruList.Valid, Span;
      PutBytes(o, lo, src);
      TouchBlock(o);
      RangesInsert(o + lo, |src|);
      StoreSlot(o, false);
    }

    /** The block's bytes, and its dirty extents. */
    method PutBytes(o: int, lo: int, src: seq<byte>)
      requires Valid() && o in blocks && 0 <= lo < lo + |src| <= BLOCK
      modifies this`blocks
      ensures Cached() && blocks.Keys == old(blocks.Keys) && o in old(CacheOf(blocks)) && Aligned(o)
      ensures
        var b := old(CacheOf(blocks))[o];
        CacheOf(blocks) == old(CacheOf(blocks))[o := Blk(Patch(b.data, lo, src), b.dirty + Span(lo, lo + |src|))]
    {
      hide Bytes, Canonical, Aligned, Cached, Tracked, CacheOf, FastSet, Patch, LruList.Offsets;
      BlockAt(o);
      var blk := blocks[o];
      var dirty := AddDirty(blk.dirty, lo, lo + |src|);
      PatchedBlockOk(o, blk, lo, src, dirty);
      Rewrite(o, Block(Patch(blk.data, lo, src), dirty));
    }

    method TouchBlock(o: int)
      requires Cached() && o in blocks
      modifies lru, lru.repr
      ensures Cached() && lru.Offsets() == ToFront(old(lru.Offsets()), o) && lru.repr == old(lru.repr)
    {
      hide LruList.Valid, LruList.Offsets, BlocksOk, ToFront;
      lru.Touch(o);
    }

    /** The shared-lock sample at the start of writeRegion. */
    method Sample(o: int) returns (resident: bool, canCache: bool)
      ensures resident <==> o in View().blocks
      ensures canCache <==> bytesInRAM + BLOCK <= maxBytes && !pool.WouldExceedMemory()
    {
      resident := o in blocks;
      canCache := bytesInRAM + BLOCK <= maxBytes && !pool.WouldExceedMemory();
    }

    /**
     The cached path of writeRegion, one critical section: re-check closed, make
     the block resident, write into it.
     */
    method WriteCached(o: int, lo: int, src: seq<byte>, junk: seq<byte>, readOk: bool)
      returns (status: Status, ghost tr: seq<Event>, ghost mid: State)
      requires (closed || Valid()) && Region(o, lo, src) && |junk| == BLOCK
      modifies this`blocks, this`bytesInRAM, this`states, this`diskBytes
      modifies ranges, onDisk, file, pool, lru, lru.repr
      ensures (old(Valid()) ==> Valid()) && fresh(lru.repr - old(lru.repr))
      ensures status == ErrClosed <==> closed
      ensures status != ErrOutOfRange
      ensures status == ErrClosed ==> View() == old(View())
      ensures closed ==> bytesInRAM == old(bytesInRAM) && diskBytes == old(diskBytes)
      ensures Does(old(View()), tr, mid) && FillsLast(tr)
      ensures status == Failed ==> View() == mid
      ensures status == Done ==> o in mid.blocks && View() == WriteInto(mid, o, lo, src)
      ensures if Loads(tr) then bytesInRAM <= maxBytes else bytesInRAM <= old(bytesInRAM)
      ensures Loads(tr) && old(file.script) == [] ==> pool.Within() || bytesInRAM == BLOCK
      ensures bytesInRAM <= old(bytesInRAM) || bytesInRAM <= maxBytes
      ensures pool.memInUse - old(pool.memInUse) == bytesInRAM - old(bytesInRAM)
      ensures pool.diskInUse - old(pool.diskInUse) == diskBytes - old(diskBytes)
      ensures old(file.script) == [] ==>
        file.script == [] && (readOk && maxBytes >= BLOCK && !closed ==> status == Done)
      ensures old(file.script) == [] ==> bytesInRAM <= old(bytesInRAM) || pool.Within() || bytesInRAM == BLOCK
    {
      hide Bytes, Canonical, Aligned, Cached, Tracked, CacheOf, Does, FastSet, WriteInto;
      tr, mid := [], View();
      DoesNothing(mid);
      if closed {
        return ErrClosed, tr, mid;
      }
      status, tr, mid := WriteOpen(o, lo, src, junk, readOk);
    }

    method WriteOpen(o: int, lo: int, src: seq<byte>, junk: seq<byte>, readOk: bool)
      returns (status: Status, ghost tr: seq<Event>, ghost mid: State)
      requires !closed && Valid() && Region(o, lo, src) && |junk| == BLOCK
      modifies this`blocks, this`bytesInRAM, this`states, this`diskBytes
      modifies ranges, onDisk, file, pool, lru, lru.repr
      ensures Valid() && fresh(lru.repr - old(lru.repr))
      ensures Does(old(View()), tr, mid) && FillsLast(tr)
      ensures status == Failed || status == Done
      ensures if Loads(tr) then bytesInRAM <= maxBytes else bytesInRAM <= old(bytesInRAM)
      ensures Loads(tr) && old(file.script) == [] ==> pool.Within() || bytesInRAM == BLOCK
      ensures status == Failed ==> View() == mid
      ensures status == Done ==> o in mid.blocks && View() == WriteInto(mid, o, lo, src)
      ensures bytesInRAM <= old(bytesInRAM) || bytesInRAM <= maxBytes
      ensures pool.memInUse - old(pool.memInUse) == bytesInRAM - old(bytesInRAM)
      ensures pool.diskInUse - old(pool.diskInUse) == diskBytes - old(diskBytes)
      ensures old(file.script) == [] ==> file.script == [] && (readOk && maxBytes >= BLOCK ==> status == Done)
      ensures old(file.script) == [] ==> bytesInRAM <= old(bytesInRAM) || pool.Within() || bytesInRAM == BLOCK
    {
      hide Bytes, Canonical, Aligned, Cached, Tracked, CacheOf, Does, FastSet, WriteInto;
      tr, mid := [], View();
      DoesNothing(mid);
      Facts();
      if o !in blocks {
        var ok;
        ok, tr := Acquire(o, junk, readOk);
        mid := View();
        if !ok {
          return Failed, tr, mid;
        }
        Facts();
      }
      WriteIntoBlock(o, lo, src);
      status := Done;
    }

    /** The pwrite of a write-through, outside the lock. */
    method Pwrite(off: int, src: seq<byte>) returns (n: nat, ok: bool)
      requires (closed || Valid()) && off >= 0
      modifies file
      ensures (old(Valid()) ==> Valid()) && n <= |src| && (ok ==> n == |src|)
      ensures View() == old(View()).(file := Patch(old(View()).file, off, src[..n]))
      ensures old(file.script) == [] ==> ok && file.script == []
    {
      hide Bytes, Canonical, Cached, Tracked, CacheOf, FastSet, Patch;
      n, ok := file.WriteAt(off, src);
    }

    /** The publish section of a write-through, after its pwrite. */
    method PublishWrite(o: int, lo: int, src: seq<byte>) returns (status: Status)
      requires (closed || Valid()) && Region(o, lo, src)
      modifies this`blocks, this`states, this`diskBytes, ranges, onDisk, pool`diskInUse, lru, lru.repr
      ensures (old(Valid()) ==> Valid()) && lru.repr == old(lru.repr)
      ensures closed ==> status == ErrClosed && View() == old(View())
      ensures closed ==> bytesInRAM == old(bytesInRAM) && diskBytes == old(diskBytes)
      ensures !closed ==> status == Done && View() == BufferSpec.Publish(old(View()), o, lo, src)
      ensures pool.diskInUse - old(pool.diskInUse) == diskBytes - old(diskBytes)
    {
      hide Valid, View, WriteInto, Mark, Aligned;
      if closed {
        return ErrClosed;
      }
      NoteOnDisk(o + lo, |src|);
      var resident := IsResident(o);
      if resident {
        WriteIntoBlock(o, lo, src);
      } else {
        PublishAbsentBlock(o, lo, |src|);
      }
      status := Done;
    }

    method NoteOnDisk(off: int, length: int)
      requires Valid()
      modifies onDisk
      ensures Valid() && View() == old(View()).(onDisk := old(View()).onDisk + Span(off, off + length))
    {
      hide Bytes, Canonical, Cached, Tracked, CacheOf, FastSet;
      OnDiskInsert(off, length);
    }

    method IsResident(o: int) returns (resident: bool)
      requires Valid()
      ensures resident <==> o in View().blocks
      ensures resident <==> o in blocks
    {
      resident := o in blocks;
    }

    method PublishAbsentBlock(o: int, lo: int, length: int)
      requires Valid() && Aligned(o)
      modifies this`states, this`diskBytes, ranges, pool`diskInUse
      ensures Valid() && View() == Mark(old(View()).(ranges := old(View()).ranges + Span(o + lo, o + lo + length)), o)
      ensures pool.diskInUse - old(pool.diskInUse) == diskBytes - old(diskBytes)
    {
      hide Bytes, Canonical, Aligned, Cached, Tracked, CacheOf, FastSet, Mark;
      RangesInsert(o + lo, length);
      MarkState(o);
    }

    /**
     writeRegion with nothing running in between: sample, then the cached path or
     pwrite and publish. The buffer stood for m before; a region that fails may
     leave bytes of its own range undefined and touches nothing else.
     */
    method WriteRegion(o: int, lo: int, src: seq<byte>, junk: seq<byte>, readOk: bool,
                       ghost m: map<int, byte>, ghost loose: set<int>)
      returns (status: Status)
      requires closed || (Valid() && Inv(View(), m, loose))
      requires Region(o, lo, src) && |junk| == BLOCK
      modifies this`blocks, this`bytesInRAM, this`states, this`diskBytes
      modifies ranges, onDisk, file, pool, lru, lru.repr
      ensures (old(Valid()) ==> Valid()) && fresh(lru.repr - old(lru.repr))
      ensures status == Done ==> Inv(View(), Written(m, o + lo, src), loose - Span(o + lo, o + lo + |src|))
      ensures !closed && status != Done ==> Inv(View(), m, loose + Span(o + lo, o + lo + |src|))
      ensures closed ==> status != Done && View() == old(View()).(file := View().file)
      ensures status != ErrOutOfRange && (status == ErrClosed ==> closed)
      ensures pool.memInUse - old(pool.memInUse) == bytesInRAM - old(bytesInRAM)
      ensures pool.diskInUse - old(pool.diskInUse) == diskBytes - old(diskBytes)
      ensures bytesInRAM <= old(bytesInRAM) || bytesInRAM <= maxBytes
      ensures old(file.script) == [] ==>
        file.script == [] && (readOk && maxBytes >= BLOCK && !closed ==> status == Done)
      ensures old(file.script) == [] ==> bytesInRAM <= old(bytesInRAM) || pool.Within() || bytesInRAM == BLOCK
    {
      hide Bytes, Canonical, Aligned, Valid, View, Inv, Does, WriteInto, Patch, BufferSpec.Publish, Written;
      ghost var w := Span(o + lo, o + lo + |src|);
      if !closed {
        LooseGrows(View(), m, loose, loose + w);
      }
      var resident, canCache := Sample(o);
      if resident || canCache {
        ghost var tr, mid;
        ghost var before := View();
        status, tr, mid := WriteCached(o, lo, src, junk, readOk);
        if closed {
          return;
        }
        DoesKeeps(before, tr, mid, m, loose);
        if status == Done {
          WriteIntoKeeps(mid, o, lo, src, m, loose);
        } else {
          LooseGrows(mid, m, loose, loose + w);
        }
        return;
      }
      ghost var before := View();
      var n, ok := Pwrite(o + lo, src);
      if !closed {
        PatchKeeps(before, o + lo, src[..n], m, loose + w);
      }
      if !ok {
        return Failed;
      }
      assert src[..n] == src;
      ghost var t := View();
      status := PublishWrite(o, lo, src);
      if status == Done {
        PublishKeeps(t, o, lo, src, m, loose + w);
        assert loose + w - w == loose - w;
      }
    }

    /**
     WriteAt with nothing running in between: block by block. The buffer comes to
     stand for m with the first n bytes of src written at off; only the part past
     them, on a failure, is left undefined.
     */
    method WriteAt(src: seq<byte>, off: int, junk: seq<byte>, readOk: bool,
                   ghost m: map<int, byte>, ghost loose: set<int>)
      returns (n: nat, status: Status)
      requires (closed || (Valid() && Inv(View(), m, loose))) && |junk| == BLOCK
      modifies this`blocks, this`bytesInRAM, this`states, this`diskBytes
      modifies ranges, onDisk, file, pool, lru, lru.repr
      ensures (old(Valid()) ==> Valid()) && fresh(lru.repr - old(lru.repr)) && n <= |src|
      ensures closed <==> status == ErrClosed
      ensures status == ErrOutOfRange <==> !closed && off < 0 && src != []
      ensures status == Done ==> n == |src| && !closed
      ensures status == Done ==> Inv(View(), Written(m, off, src), loose - Span(off, off + |src|))
      ensures !closed && status != Done ==>
        Inv(View(), Written(m, off, src[..n]), loose - Span(off, off + n) + Span(off + n, off + |src|))
      ensures status == ErrOutOfRange || closed ==> n == 0 && View() == old(View())
      ensures old(file.script) == [] ==>
        file.script == [] && (readOk && maxBytes >= BLOCK && !closed && off >= 0 ==> status == Done)
      ensures pool.memInUse - old(pool.memInUse) == bytesInRAM - old(bytesInRAM)
      ensures pool.diskInUse - old(pool.diskInUse) == diskBytes - old(diskBytes)
      ensures bytesInRAM <= old(bytesInRAM) || bytesInRAM <= maxBytes
    {
      hide Bytes, Canonical, Aligned, Valid, View, Inv, Written, AlignDown;
      ghost var all := Span(off, off + |src|);
      WrittenNone(m, off);
      assert src[..0] == [];
      SpanNone(off, off);
      assert loose - Span(off, off) == loose;
      if closed || src == [] || off < 0 {
        if !closed {
          LooseGrows(View(), m, loose, loose - Span(off, off + 0) + all);
        }
        return 0, if closed then ErrClosed else if src == [] then Done else ErrOutOfRange;
      }
      var end := off + |src|;
      var cur := off;
      while cur < end
        invariant off <= cur <= end && Valid() && fresh(lru.repr - old(lru.repr))
        invariant Inv(View(), Written(m, off, src[..cur - off]), loose - Span(off, cur))
        invariant pool.memInUse - old(pool.memInUse) == bytesInRAM - old(bytesInRAM)
        invariant pool.diskInUse - old(pool.diskInUse) == diskBytes - old(diskBytes)
        invariant bytesInRAM <= old(bytesInRAM) || bytesInRAM <= maxBytes
        invariant old(file.script) == [] ==> file.script == []
      {
        var o := AlignDown(cur);
        AlignNonNegative(cur);
        var next := if end < o + BLOCK then end else o + BLOCK;
        var at := cur - off;
        var part := src[at..next - off];
        ghost var m' := Written(m, off, src[..at]);
        ghost var loose' := loose - Span(off, cur);
        var st := WriteRegion(o, cur - o, part, junk, readOk, m', loose');
        if st != Done {
          LooseGrows(View(), m', loose' + Span(cur, next), loose - Span(off, cur) + Span(cur, end));
          return at, st;
        }
        WrittenTwice(m, off, src[..at], part);
        assert src[..at] + part == src[..next - off];
        assert loose' - Span(cur, next) == loose - Span(off, next);
        cur := next;
      }
      assert src[..cur - off] == src;
      n, status := |src|, Done;
    }

    // ---- discarding -----------------------------------------------------------------

    /** discard's first loop at one block: drop it, or trim its dirty extents. */
    method TrimBlock(o: int, off: int, end: int)
      requires Valid() && Aligned(o) && off < end && off < o + BLOCK && o < end
      modifies this`blocks, this`bytesInRAM, this`states, pool`memInUse, lru, lru.repr
      ensures Valid() && View() == TrimVisit(old(View()), o, off, end) && lru.repr == old(lru.repr)
      ensures pool.memInUse - old(pool.memInUse) == bytesInRAM - old(bytesInRAM) <= 0
    {
      hide Bytes, Canonical, Aligned, Cached, Tracked, CacheOf, FastSet, Drop;
      Facts();
      if o in blocks {
        if off <= o && o + BLOCK <= end {
          DropBlock(o);
        } else {
          BlockAt(o);
          var blk := blocks[o];
          var lo := if off - o > 0 then off - o else 0;
          var hi := if end - o < BLOCK then end - o else BLOCK;
          var dirty := RemoveDirty(blk.dirty, lo, hi);
          TrimmedBlockOk(o, blk, off, end, dirty);
          Rewrite(o, Block(blk.data, dirty));
        }
      }
    }

    method TrimBlocks(off: int, end: int)
      requires Valid() && off < end
      modifies this`blocks, this`bytesInRAM, this`states, pool`memInUse, lru, lru.repr
      ensures Valid() && lru.repr == old(lru.repr)
      ensures exists b :: end <= b && Visited(old(View()), View(), off, end, b)
      ensures pool.memInUse - old(pool.memInUse) == bytesInRAM - old(bytesInRAM) <= 0
    {
      hide Bytes, Canonical, Aligned, Valid, View, AlignDown, Visited, TrimVisit;
      ghost var before := View();
      ViewReady();
      VisitedNone(before, off, end);
      var b := AlignDown(off);
      while b < end
        invariant AlignDown(off) <= b && Aligned(b) && Valid() && lru.repr == old(lru.repr)
        invariant Visited(before, View(), off, end, b)
        invariant pool.memInUse - old(pool.memInUse) == bytesInRAM - old(bytesInRAM) <= 0
      {
        VisitBlock(before, View(), off, end, b);
        TrimBlock(b, off, end);
        AlignNext(b);
        b := b + BLOCK;
      }
    }

    /** discard's second loop at one edge. */
    method DropEmptyEdge(o: int)
      requires Valid() && Aligned(o)
      modifies this`blocks, this`bytesInRAM, this`states, pool`memInUse, lru, lru.repr
      ensures Valid() && View() == DropIfEmpty(old(View()), o) && lru.repr == old(lru.repr)
      ensures pool.memInUse - old(pool.memInUse) == bytesInRAM - old(bytesInRAM) <= 0
    {
      hide Bytes, Canonical, Aligned, Cached, Tracked, CacheOf, FastSet, Drop;
      Facts();
      TrackedRanges();
      var any := ranges.AnyPresent(o, BLOCK);
      if o in blocks && !any {
        DropBlock(o);
      }
    }

    /** discard's last loop. */
    method MarkBlocks(off: int, end: int)
      requires Valid() && off < end
      modifies this`states
      ensures Valid() && View() == MarkTouched(old(View()), off, end)
    {
      hide Bytes, Canonical, Aligned, AlignDown, Cached, Tracked, CacheOf, FastSet, FullyPresent;
      ghost var s := View();
      ViewReady();
      var b := AlignDown(off);
      while b < end
        invariant AlignDown(off) <= b && Aligned(b) && Valid()
        invariant View() == s.(fast := View().fast) && MarkedTo(s, View().fast, off, end, b)
      {
        MarkedStep(s, View().fast, off, end, b);
        MarkState(b);
        AlignNext(b);
        b := b + BLOCK;
      }
      MarkedAll(s, View().fast, off, end, b);
    }

    /**
     The locked section of discard. It reports how many present bytes went and
     whether any of them had reached the file.
     */
    method DiscardLocked(off: int, length: int) returns (removed: nat, hadDisk: bool)
      requires (closed || Valid()) && length > 0
      modifies this`blocks, this`bytesInRAM, this`states, this`diskBytes, ranges, onDisk, pool, lru, lru.repr
      ensures (old(Valid()) ==> Valid()) && lru.repr == old(lru.repr)
      ensures closed ==> View() == old(View()) && removed == 0 && !hadDisk
      ensures closed ==> bytesInRAM == old(bytesInRAM) && diskBytes == old(diskBytes)
      ensures !closed ==> View() == Discard(old(View()), off, off + length)
      ensures !closed ==> (hadDisk <==> old(View()).onDisk * Span(off, off + length) != {})
      ensures pool.memInUse - old(pool.memInUse) == bytesInRAM - old(bytesInRAM) <= 0
      ensures pool.diskInUse - old(pool.diskInUse) == diskBytes - old(diskBytes) == 0 - removed
    {
      hide Bytes, Canonical, Aligned, AlignDown, Valid, View, Visited, Discard, MarkTouched, DropIfEmpty;
      if closed {
        return 0, false;
      }
      var end := off + length;
      ghost var before := View();
      ViewReady();
      TrimBlocks(off, end);
      ghost var t := View();
      ghost var b :| end <= b && Visited(before, t, off, end, b);
      SettleIsDiscard(before, t, off, end, b);
      VisitedDisk(before, t, off, end, b);
      removed, hadDisk := SettleTrackers(off, length);
    }

    /** The rest of the locked section, after the first loop. */
    method SettleTrackers(off: int, length: int) returns (removed: nat, hadDisk: bool)
      requires Valid() && length > 0
      modifies this`blocks, this`bytesInRAM, this`states, this`diskBytes, ranges, onDisk, pool, lru, lru.repr
      ensures Valid() && lru.repr == old(lru.repr)
      ensures View() == Settle(old(View()), off, off + length)
      ensures hadDisk <==> old(View()).onDisk * Span(off, off + length) != {}
      ensures pool.memInUse - old(pool.memInUse) == bytesInRAM - old(bytesInRAM) <= 0
      ensures pool.diskInUse - old(pool.diskInUse) == diskBytes - old(diskBytes) == 0 - removed
    {
      hide Aligned, AlignDown, Buffer.Valid, Buffer.View, MarkTouched, DropIfEmpty;
      removed := LoseRanges(off, length);
      EdgeDisk(View(), AlignDown(off));
      DropEmptyEdge(AlignDown(off));
      EdgeDisk(View(), AlignDown(off + length - 1));
      DropEmptyEdge(AlignDown(off + length - 1));
      hadDisk := LoseOnDisk(off, length);
      MarkBlocks(off, off + length);
    }

    method LoseRanges(off: int, length: int) returns (removed: nat)
      requires Valid()
      modifies ranges, this`diskBytes, pool`diskInUse
      ensures Valid() && View() == old(View()).(ranges := old(View()).ranges - Span(off, off + length))
      ensures pool.diskInUse - old(pool.diskInUse) == diskBytes - old(diskBytes) == 0 - removed
    {
      hide Bytes, Canonical, Cached, Tracked, CacheOf, FastSet;
      removed := RangesRemove(off, length);
    }

    method LoseOnDisk(off: int, length: int) returns (hadDisk: bool)
      requires Valid()
      modifies onDisk
      ensures Valid() && View() == old(View()).(onDisk := old(View()).onDisk - Span(off, off + length))
      ensures hadDisk <==> old(View()).onDisk * Span(off, off + length) != {}
    {
      hide Bytes, Canonical, Cached, Tracked, CacheOf, FastSet;
      var n := OnDiskRemove(off, length);
      hadDisk := n > 0;
    }

    /** discard: the locked section, then the punch when bytes of the range had reached the file. */
    method DiscardBytes(off: int, length: int, noise: int -> byte) returns (removed: nat)
      requires (closed || Valid()) && length > 0
      modifies this`blocks, this`bytesInRAM, this`states, this`diskBytes, ranges, onDisk, file`bytes, pool, lru, lru.repr
      ensures (old(Valid()) ==> Valid()) && lru.repr == old(lru.repr)
      ensures closed ==> View() == old(View()) && removed == 0
      ensures !closed ==>
        && View() == Discard(old(View()), off, off + length).(file := View().file)
        && Punched(old(View()).file, View().file, off, off + length)
      ensures !closed && old(View()).onDisk * Span(off, off + length) == {} ==> View().file == old(View()).file
      ensures pool.memInUse - old(pool.memInUse) == bytesInRAM - old(bytesInRAM)
      ensures pool.diskInUse - old(pool.diskInUse) == diskBytes - old(diskBytes) == 0 - removed
    {
      hide Bytes, Canonical, Cached, Tracked, CacheOf, FastSet, Discard;
      var hadDisk;
      ghost var before := View();
      DiscardFile(before, off, off + length);
      removed, hadDisk := DiscardLocked(off, length);
      if hadDisk {
        file.Punch(off, length, noise);
      }
    }

    /** Discard, for a buffer that stands for m. */
    method DiscardCall(off: int, length: int, noise: int -> byte, ghost m: map<int, byte>, ghost loose: set<int>)
      returns (status: Status)
      requires closed || (Valid() && Inv(View(), m, loose))
      modifies this`blocks, this`bytesInRAM, this`states, this`diskBytes, ranges, onDisk, file`bytes, pool, lru, lru.repr
      ensures (old(Valid()) ==> Valid()) && lru.repr == old(lru.repr)
      ensures status == if closed then ErrClosed else if length == 0 || (off >= 0 && length > 0) then Done else ErrOutOfRange
      ensures status == Done && length > 0 ==> Inv(View(), Erased(m, off, off + length), loose - Span(off, off + length))
      ensures status != Done || length == 0 ==> View() == old(View())
      ensures pool.memInUse - old(pool.memInUse) == bytesInRAM - old(bytesInRAM)
      ensures pool.diskInUse - old(pool.diskInUse) == diskBytes - old(diskBytes)
    {
      hide Bytes, Canonical, Valid, View, Inv, Discard, Erased, Punched;
      if closed {
        return ErrClosed;
      }
      if off < 0 || length <= 0 {
        return if length == 0 then Done else ErrOutOfRange;
      }
      ghost var before := View();
      var _ := DiscardBytes(off, length, noise);
      DiscardedKeeps(before, View().file, off, off + length, m, loose);
      status := Done;
    }

    /** The bytes below the protected window. */
    ghost function Behind(backWindow: int): set<int>
      reads this`closed, this`readHead
    {
      if closed || readHead <= 0 then {} else Span(0, readHead - backWindow)
    }

    /**
     punchBehindWindow: everything present in [0, readHead - backWindow) goes, and
     nothing else; evicted lists the onEvict calls.
     */
    method PunchBehindWindow(backWindow: int, noise: int -> byte, ghost m: map<int, byte>, ghost loose: set<int>)
      returns (reclaimed: nat, evicted: seq<Extent>)
      requires closed || Valid()
      modifies this`blocks, this`bytesInRAM, this`states, this`diskBytes, ranges, onDisk, file`bytes, pool, lru, lru.repr
      ensures (old(Valid()) ==> Valid()) && lru.repr == old(lru.repr)
      ensures
        var behind := Behind(backWindow);
        && (!closed && old(Inv(View(), m, loose)) ==> Inv(View(), m - behind, loose - behind))
        && (closed ==> View() == old(View()) && bytesInRAM == old(bytesInRAM))
        && View().ranges == old(View()).ranges - behind
        && Bytes(evicted) == old(View()).ranges * behind
        && reclaimed == |old(View()).ranges| - |View().ranges|
        && (reclaimed == 0 <==> old(View()).ranges * behind == {})
      ensures pool.memInUse - old(pool.memInUse) == bytesInRAM - old(bytesInRAM)
      ensures pool.diskInUse - old(pool.diskInUse) == diskBytes - old(diskBytes) == 0 - reclaimed
    {
      hide Bytes, Canonical, Valid, View, Inv, Span;
      reclaimed, evicted := 0, [];
      BytesEmpty();
      var ceiling := readHead - backWindow;
      NothingBehind(View(), m, loose, ceiling);
      if closed || readHead <= 0 || ceiling <= 0 {
        return;
      }
      reclaimed, evicted := PunchBelow(ceiling, noise, m, loose);
    }

    method PunchBelow(ceiling: int, noise: int -> byte, ghost m: map<int, byte>, ghost loose: set<int>)
      returns (reclaimed: nat, evicted: seq<Extent>)
      requires Valid() && !closed
      modifies this`blocks, this`bytesInRAM, this`states, this`diskBytes, ranges, onDisk, file`bytes, pool, lru, lru.repr
      ensures Valid() && lru.repr == old(lru.repr)
      ensures
        var behind := Span(0, ceiling);
        && (old(Inv(View(), m, loose)) ==> Inv(View(), m - behind, loose - behind))
        && View().ranges == old(View()).ranges - behind
        && Bytes(evicted) == old(View()).ranges * behind
        && reclaimed == |old(View()).ranges| - |View().ranges|
        && (reclaimed == 0 <==> old(View()).ranges * behind == {})
      ensures pool.memInUse - old(pool.memInUse) == bytesInRAM - old(bytesInRAM)
      ensures pool.diskInUse - old(pool.diskInUse) == diskBytes - old(diskBytes) == 0 - reclaimed
    {
      hide Bytes, Canonical, Valid, View, Inv, Span;
      var present := PresentBelow(ceiling);
      reclaimed, evicted := PunchEach(present, noise, m, loose);
      RangesLeft(old(View()).ranges, View().ranges, Bytes(present), ceiling);
      if old(Inv(View(), m, loose)) {
        BehindErased(old(View()), View(), m, loose, Bytes(present), ceiling);
      }
    }

    method PresentBelow(ceiling: int) returns (present: seq<Extent>)
      requires Valid()
      ensures Canonical(present) && Bytes(present) == View().ranges * Span(0, ceiling)
    {
      hide Bytes, Canonical, Cached, CacheOf, FastSet;
      present := ranges.PresentRanges(0, ceiling);
    }

    /** The loop of punchBehindWindow: discard each present range and report it. */
    method PunchEach(present: seq<Extent>, noise: int -> byte, ghost m: map<int, byte>, ghost loose: set<int>)
      returns (reclaimed: nat, evicted: seq<Extent>)
      requires Valid() && !closed
      requires Canonical(present) && Bytes(present) <= View().ranges
      modifies this`blocks, this`bytesInRAM, this`states, this`diskBytes, ranges, onDisk, file`bytes, pool, lru, lru.repr
      ensures Valid() && lru.repr == old(lru.repr)
      ensures old(Inv(View(), m, loose)) ==> Inv(View(), m - Bytes(present), loose - Bytes(present))
      ensures View().ranges == old(View()).ranges - Bytes(present)
      ensures Bytes(evicted) == Bytes(present) && reclaimed == |old(View()).ranges| - |View().ranges|
      ensures pool.memInUse - old(pool.memInUse) == bytesInRAM - old(bytesInRAM)
      ensures pool.diskInUse - old(pool.diskInUse) == diskBytes - old(diskBytes) == 0 - reclaimed
    {
      hide Bytes, Canonical, Valid, View, Inv, Span, Erased, Below, Above;
      ghost var before := View();
      DiskSized();
      BytesEmpty();
      reclaimed, evicted := 0, [];
      var i: nat := 0;
      assert present[..0] == [];
      PunchedNone(m, loose, before.ranges);
      while i < |present|
        invariant i <= |present| && Valid() && lru.repr == old(lru.repr) && !closed
        invariant Inv(before, m, loose) ==> Inv(View(), m - Bytes(present[..i]), loose - Bytes(present[..i]))
        invariant View().ranges == before.ranges - Bytes(present[..i])
        invariant evicted == present[..i]
        invariant pool.memInUse - old(pool.memInUse) == bytesInRAM - old(bytesInRAM)
        invariant pool.diskInUse - old(pool.diskInUse) == diskBytes - old(diskBytes) == 0 - reclaimed
      {
        var r := present[i];
        ghost var done := Bytes(present[..i]);
        PunchNext(present, i, m, loose, before.ranges);
        var n := PunchOne(r, noise, m - done, loose - done);
        if n > 0 {
          reclaimed := reclaimed + n;
          evicted := evicted + [r];
        }
        i := i + 1;
      }
      assert present[..i] == present;
      DiskSized();
    }

    method PunchOne(r: Extent, noise: int -> byte, ghost m: map<int, byte>, ghost loose: set<int>) returns (n: nat)
      requires Valid() && !closed && r.off < r.end
      modifies this`blocks, this`bytesInRAM, this`states, this`diskBytes, ranges, onDisk, file`bytes, pool, lru, lru.repr
      ensures Valid() && lru.repr == old(lru.repr)
      ensures old(Inv(View(), m, loose)) ==> Inv(View(), Erased(m, r.off, r.end), loose - Span(r.off, r.end))
      ensures View().ranges == old(View()).ranges - Span(r.off, r.end)
      ensures r.off in old(View()).ranges ==> n > 0
      ensures pool.memInUse - old(pool.memInUse) == bytesInRAM - old(bytesInRAM)
      ensures pool.diskInUse - old(pool.diskInUse) == diskBytes - old(diskBytes) == 0 - n
    {
      hide Valid, View, Inv, Discard, Punched, Erased, Span;
      ghost var s := View();
      FewerLeft(s.ranges, r);
      DiskSized();
      DiscardFile(s, r.off, r.end);
      n := DiscardBytes(r.off, r.end - r.off, noise);
      DiskSized();
      if Inv(s, m, loose) {
        DiscardedKeeps(s, View().file, r.off, r.end, m, loose);
      }
    }

    lemma DiskSized()
      requires Valid()
      ensures diskBytes == |View().ranges|
    {
    }

    lemma ViewReady()
      requires Valid()
      ensures Ready(View())
    {
      hide Bytes, Canonical, Aligned, Tracked;
      lru.Exact();
      FastSetRange(states);
    }

    // ---- flushing and closing ----------------------------------------------------------

    /** flushAllLocked, over the blocks in whatever order the map yields them. */
    method FlushAll(visit: seq<int>) returns (ok: bool, ghost tr: seq<Event>)
      requires Valid() && blocks.Keys == set o | o in visit
      modifies this`blocks, onDisk, file
      ensures Valid() && Does(old(View()), tr, View()) && blocks.Keys == old(blocks.Keys)
      ensures ok ==> forall o :: o in blocks ==> blocks[o].dirty == []
      ensures old(file.script) == [] ==> ok && file.script == []
    {
      hide Valid, View, Does;
      ghost var before := View();
      DoesNothing(before);
      tr := [];
      var i: nat := 0;
      while i < |visit|
        invariant i <= |visit| && Valid() && Does(before, tr, View()) && blocks.Keys == old(blocks.Keys)
        invariant forall j :: 0 <= j < i ==> visit[j] in blocks && blocks[visit[j]].dirty == []
        invariant old(file.script) == [] ==> file.script == []
      {
        assert visit[i] in visit;
        ghost var s, was := View(), blocks;
        ghost var more;
        ok, more := FlushBlock(visit[i]);
        assert forall p :: p in blocks && p != visit[i] ==> blocks[p] == was[p];
        DoesThen(before, tr, s, more, View());
        tr := tr + more;
        if !ok {
          return;
        }
        i := i + 1;
      }
      ok := true;
    }

    /** Flush */
    method Flush(visit: seq<int>) returns (status: Status, ghost tr: seq<Event>)
      requires closed || (Valid() && blocks.Keys == set o | o in visit)
      modifies this`blocks, onDisk, file
      ensures (old(Valid()) ==> Valid()) && Does(old(View()), tr, View())
      ensures closed ==> View() == old(View())
      ensures closed <==> status == ErrClosed
      ensures status == Done ==> forall o :: o in View().blocks ==> View().blocks[o].dirty == {}
      ensures old(file.script) == [] ==> file.script == [] && (!closed ==> status == Done)
    {
      hide Does;
      if closed {
        DoesNothing(View());
        return ErrClosed, [];
      }
      var ok;
      ok, tr := FlushAll(visit);
      hide Valid;
      if ok {
        AllClean();
      }
      status := if ok then Done else Failed;
    }

    lemma AllClean()
      requires Valid() && forall o :: o in blocks ==> blocks[o].dirty == []
      ensures forall o :: o in View().blocks ==> View().blocks[o].dirty == {}
    {
      hide Bytes, Canonical;
      BytesEmpty();
    }

    /**
     Close, once the flag is won: flush what is dirty, ignoring failures, give up
     every block, and settle this buffer's share of both pool counters. A second
     call changes nothing.
     */
    method Close(visit: seq<int>, ghost m: map<int, byte>, ghost loose: set<int>) returns (status: Status)
      requires closed || (Valid() && blocks.Keys == (set o | o in visit) && Inv(View(), m, loose))
      modifies this`closed, this`blocks, this`bytesInRAM, this`diskBytes, this`ranges, this`onDisk
      modifies onDisk, file, pool
      ensures closed && (status == ErrClosed <==> old(closed))
      ensures old(closed) ==>
        View() == old(View()) && pool.memInUse == old(pool.memInUse) && pool.diskInUse == old(pool.diskInUse)
      ensures !old(closed) ==>
        && blocks == map[] && bytesInRAM == 0 && diskBytes == 0
        && View().ranges == {} && View().onDisk == {}
        && pool.memInUse == old(pool.memInUse) - old(bytesInRAM)
        && pool.diskInUse == old(pool.diskInUse) - |old(View()).ranges|
      ensures !old(closed) && old(file.script) == [] ==> Holds(file.bytes, m, loose)
    {
      if closed {
        return ErrClosed;
      }
      closed := true;
      GiveUp(visit, m, loose);
      status := Done;
    }

    /** Close's critical section, which only the call that won the flag comes to. */
    method GiveUp(visit: seq<int>, ghost m: map<int, byte>, ghost loose: set<int>)
      requires Valid() && blocks.Keys == set o | o in visit
      modifies this`blocks, this`bytesInRAM, this`diskBytes, this`ranges, this`onDisk
      modifies onDisk, file, pool
      ensures blocks == map[] && bytesInRAM == 0 && diskBytes == 0
      ensures old(file.script) == [] ==> file.script == []
      ensures View().ranges == {} && View().onDisk == {} && fresh(ranges) && fresh(onDisk)
      ensures pool.memInUse == old(pool.memInUse) - old(bytesInRAM)
      ensures pool.diskInUse == old(pool.diskInUse) - old(diskBytes) && old(diskBytes) == |old(View()).ranges|
      ensures old(Inv(View(), m, loose)) && old(file.script) == [] ==> Holds(file.bytes, m, loose)
    {
      hide Cached, Tracked, Bytes, FastSet, CacheOf, Does, Inv, Holds;
      DiskSized();
      Sized();
      ghost var before := View();
      ghost var tr := FlushBestEffort(visit);
      if Inv(before, m, loose) {
        DoesKeeps(before, tr, View(), m, loose);
        if old(file.script) == [] {
          CleanFileHolds(View(), m, loose);
        }
      }
      DiskSized();
      Release();
    }

    /** Close's loop over the blocks; a flush that fails is ignored. */
    method FlushBestEffort(visit: seq<int>) returns (ghost tr: seq<Event>)
      requires Valid() && blocks.Keys == set o | o in visit
      modifies this`blocks, onDisk, file
      ensures Valid() && View().ranges == old(View()).ranges && Does(old(View()), tr, View())
      ensures old(file.script) == [] ==> file.script == []
      ensures old(file.script) == [] ==> forall o :: o in View().blocks ==> View().blocks[o].dirty == {}
    {
      hide Bytes, Canonical, Cached, Tracked, CacheOf, FastSet, Does;
      TrackedRanges();
      ghost var before := View();
      DoesNothing(before);
      tr := [];
      var i: nat := 0;
      while i < |visit|
        invariant i <= |visit| && Valid() && blocks.Keys == old(blocks.Keys) && Does(before, tr, View())
        invariant old(file.script) == [] ==> file.script == []
        invariant old(file.script) == [] ==> forall j :: 0 <= j < i ==> visit[j] in blocks && blocks[visit[j]].dirty == []
      {
        assert visit[i] in visit;
        if blocks[visit[i]].dirty != [] {
          ghost var s, was := View(), blocks;
          var ok;
          ghost var more;
          ok, more := FlushBlock(visit[i]);
          assert forall p :: p in blocks && p != visit[i] ==> blocks[p] == was[p];
          DoesThen(before, tr, s, more, View());
          tr := tr + more;
        }
        i := i + 1;
      }
      if old(file.script) == [] {
        AllClean();
      }
    }

    /** The end of Close's critical section: forget the blocks and settle the counters. */
    method Release()
      modifies this`blocks, this`bytesInRAM, this`diskBytes, this`ranges, this`onDisk, pool
      ensures blocks == map[] && bytesInRAM == 0 && diskBytes == 0
      ensures View().ranges == {} && View().onDisk == {} && fresh(ranges) && fresh(onDisk)
      ensures pool.memInUse == old(pool.memInUse) - (if old(bytesInRAM) > 0 then old(bytesInRAM) else 0)
      ensures pool.diskInUse == old(pool.diskInUse) - (if old(diskBytes) > 0 then old(diskBytes) else 0)
    {
      blocks := map[];
      if bytesInRAM > 0 {
        pool.memInUse := pool.memInUse - bytesInRAM;
      }
      bytesInRAM := 0;
      if diskBytes > 0 {
        pool.diskInUse := pool.diskInUse - diskBytes;
      }
      diskBytes := 0;
      ranges := new RangeSet();
      onDisk := new RangeSet();
    }

    // ---- reading ------------------------------------------------------------------

    /** The lock-free check of ReadAt: one slot load per block. */
    method AllSlotsFast(off: int, n: nat) returns (all: bool)
      ensures all <==> AllFast(View(), off, n)
    {
      hide Bytes, Aligned, FastSet, CacheOf;
      var cur, end := off, off + n;
      while cur < end
        invariant off <= cur
        invariant forall x :: off <= x < cur && x < end ==> AlignDown(x) in FastSet(states)
      {
        var o := AlignDown(cur);
        SlotIsFast(states, o);
        if !(0 <= o / BLOCK < |states| && states[o / BLOCK]) {
          assert cur in Span(off, off + n);
          return false;
        }
        forall x | cur <= x < o + BLOCK
          ensures AlignDown(x) == o
        {
          AlignUnique(o, x);
        }
        hide AlignDown;
        cur := o + BLOCK;
      }
      all := true;
    }

    /** One region of the locked path: from the resident block, else from the file. */
    method ReadRegion(cur: int, next: int) returns (short: bool, part: seq<byte>)
      requires Valid() && 0 <= cur < next <= AlignDown(cur) + BLOCK
      ensures short ==> !Serves(View(), next - 1)
      ensures !short ==> |part| == next - cur
      ensures !short ==> forall x :: cur <= x < next ==> Serves(View(), x) && ByteAt(View(), x) == part[x - cur]
    {
      hide Bytes, Canonical, Aligned, AlignDown, Tracked, FastSet, Cached;
      var o := AlignDown(cur);
      forall x | cur <= x < next
        ensures AlignDown(x) == o
      {
        AlignUnique(o, x);
      }
      if o in blocks {
        BlockAt(o);
        hide CacheOf;
        var data := blocks[o].data;
        short, part := false, data[cur - o..next - o];
      } else if next > |file.bytes| {
        short, part := true, [];
      } else {
        short, part := false, file.bytes[cur..next];
      }
    }

    /** ReadAt's locked path. */
    method ReadUnderLock(off: int, n: nat) returns (r: ReadResult)
      requires Valid() && 0 <= off && 0 < n
      ensures r == ReadLocked(View(), off, n)
    {
      hide Bytes, Canonical, Aligned, AlignDown, Tracked, FastSet, Cached, CacheOf, ByteAt, Serves;
      TrackedRanges();
      var present := ranges.Present(off, n);
      if !present {
        return NotPresent;
      }
      var cur, end := off, off + n;
      var p: seq<byte> := [];
      while cur < end
        invariant off <= cur <= end && |p| == cur - off
        invariant forall x :: off <= x < cur ==> Serves(View(), x) && ByteAt(View(), x) == p[x - off]
      {
        var next := if end < AlignDown(cur) + BLOCK then end else AlignDown(cur) + BLOCK;
        var short, part := ReadRegion(cur, next);
        if short {
          assert next - 1 in Span(off, off + n);
          return ShortFile;
        }
        forall x | off <= x < next
          ensures Serves(View(), x) && ByteAt(View(), x) == (p + part)[x - off]
        {
        }
        p, cur := p + part, next;
      }
      LockedData(View(), off, p);
      r := Data(p);
    }

    /** ReadAt: the bare pread when every slot allows it, else the locked path. */
    method ReadAt(off: int, n: nat) returns (status: Status, r: ReadResult)
      requires closed || Valid()
      ensures closed <==> status == ErrClosed
      ensures !closed ==> (status == ErrOutOfRange <==> n > 0 && off < 0) && status != Failed
      ensures status == Done ==> r == if n == 0 then Data([]) else Read(View(), off, n)
    {
      hide Bytes, Canonical, Tracked, FastSet, Cached, CacheOf, AllFast, ReadLocked;
      if closed {
        return ErrClosed, NotPresent;
      }
      if n == 0 {
        return Done, Data([]);
      }
      if off < 0 {
        return ErrOutOfRange, NotPresent;
      }
      status := Done;
      var all := AllSlotsFast(off, n);
      if all {
        r := if off + n <= |file.bytes| then Data(file.bytes[off..off + n]) else ShortFile;
      } else {
        r := ReadUnderLock(off, n);
      }
    }

    lemma BlockAt(o: int)
      requires Cached() && o in blocks
      ensures BlockOk(o, blocks[o])
      ensures CacheOf(blocks).Keys == blocks.Keys && CacheOf(blocks)[o] == BlkOf(blocks[o])
    {
    }
  }

  lemma CacheKeys(blocks: map<int, Block>)
    ensures CacheOf(blocks).Keys == blocks.Keys
  {
  }

  lemma CacheMinus(blocks: map<int, Block>, o: int)
    requires BlocksOk(blocks) && o in blocks
    ensures CacheOf(blocks - {o}) == CacheOf(blocks) - {o} && CacheOf(blocks).Keys == blocks.Keys
    ensures BlocksOk(blocks - {o}) && (blocks - {o}).Keys == blocks.Keys - {o}
    ensures |blocks - {o}| == |blocks| - 1
  {
    hide BlkOf, BlockOk;
    assert (blocks - {o}).Keys == blocks.Keys - {o};
  }

  lemma CachePut(blocks: map<int, Block>, o: int, b: Block)
    requires BlocksOk(blocks) && BlockOk(o, b)
    ensures CacheOf(blocks[o := b]) == CacheOf(blocks)[o := BlkOf(b)] && CacheOf(blocks).Keys == blocks.Keys
    ensures BlocksOk(blocks[o := b]) && blocks[o := b].Keys == blocks.Keys + {o}
    ensures |blocks[o := b]| == |blocks| + (if o in blocks then 0 else 1)
  {
    hide BlkOf, BlockOk;
    assert blocks[o := b].Keys == blocks.Keys + {o};
  }

  /** Bytes xs of block o have reached the file and are noted there. */
  ghost predicate Saved(s: State, o: int, xs: set<int>) {
    && o in s.blocks && |s.blocks[o].data| == BLOCK && xs <= Span(0, BLOCK)
    && forall x :: x in xs ==> o + x in s.onDisk && 0 <= o + x < |s.file| && s.file[o + x] == s.blocks[o].data[x]
  }

  lemma DirtyExtent(o: int, b: Block, i: nat)
    requires BlockOk(o, b) && i < |b.dirty|
    ensures 0 <= o && 0 <= b.dirty[i].off < b.dirty[i].end <= BLOCK == |b.data|
    ensures Span(b.dirty[i].off, b.dirty[i].end) <= Bytes(b.dirty)
    ensures Below(Bytes(b.dirty[..i]), b.dirty[i].off)
    ensures Bytes(b.dirty[..i + 1]) == Bytes(b.dirty[..i]) + Span(b.dirty[i].off, b.dirty[i].end)
  {
    hide Bytes;
    BytesSplit(b.dirty, i);
    var e := b.dirty[i];
    assert e.off in Span(e.off, e.end) && e.end - 1 in Span(e.off, e.end);
  }

  lemma SliceOfSlice(d: seq<byte>, lo: nat, hi: nat, n: nat)
    requires lo + n <= hi <= |d|
    ensures d[lo..hi][..n] == d[lo..lo + n]
  {
  }

  lemma FlushedTorn(s: State, o: int, b: Block, i: nat, n: nat)
    requires BlockOk(o, b) && i < |b.dirty| && o in s.blocks && s.blocks[o] == BlkOf(b)
    requires 0 <= b.dirty[i].off <= b.dirty[i].end <= |b.data| && 0 < n <= b.dirty[i].end - b.dirty[i].off
    ensures
      var lo, hi := b.dirty[i].off, b.dirty[i].end;
      var e := FlushPart(o, lo, lo + n, false);
      Legal(s, e) && o + lo >= 0 && Do(s, e) == s.(file := Patch(s.file, o + lo, b.data[lo..hi][..n]))
  {
    hide Bytes, Canonical, Patch;
    DirtyExtent(o, b, i);
    var lo, hi := b.dirty[i].off, b.dirty[i].end;
    SliceOfSlice(b.data, lo, hi, n);
    assert Span(lo, lo + n) <= Span(lo, hi);
  }

  lemma FlushedWhole(s: State, o: int, b: Block, i: nat)
    requires BlockOk(o, b) && i < |b.dirty| && o in s.blocks && s.blocks[o] == BlkOf(b)
    requires Saved(s, o, Bytes(b.dirty[..i]))
    ensures
      var e := FlushPart(o, b.dirty[i].off, b.dirty[i].end, true);
      Legal(s, e) && Saved(Do(s, e), o, Bytes(b.dirty[..i + 1]))
    ensures
      var lo, hi := b.dirty[i].off, b.dirty[i].end;
      && 0 <= o + lo && 0 <= lo <= hi <= |b.data|
      && Do(s, FlushPart(o, lo, hi, true))
         == s.(file := Patch(s.file, o + lo, b.data[lo..hi]), onDisk := s.onDisk + Span(o + lo, o + hi))
  {
    hide Bytes, Canonical, Patch;
    DirtyExtent(o, b, i);
    var lo, hi := b.dirty[i].off, b.dirty[i].end;
    var t := Do(s, FlushPart(o, lo, hi, true));
    PatchAt(s.file, o + lo, b.data[lo..hi], 0);
    forall x | x in Bytes(b.dirty[..i + 1])
      ensures 0 <= x < BLOCK && o + x in t.onDisk && 0 <= o + x < |t.file| && t.file[o + x] == b.data[x]
    {
      PatchAt(s.file, o + lo, b.data[lo..hi], o + x);
      assert x in Bytes(b.dirty[..i]) || x in Span(lo, hi);
    }
  }

  lemma SavedAll(s: State, o: int)
    requires o in s.blocks && Saved(s, o, s.blocks[o].dirty)
    ensures Legal(s, Clean(o)) && Do(s, Clean(o)) == s.(blocks := s.blocks[o := s.blocks[o].(dirty := {})])
  {
    forall x | AlignDown(x) == o && IsDirty(s, x)
      ensures x in s.onDisk && 0 <= x < |s.file| && s.file[x] == ByteAt(s, x)
    {
      assert o + (x - o) in s.onDisk;
    }
  }

  lemma VictimFromWalk(s: State, test: int -> bool, found: bool, o: int)
    requires forall i :: 0 <= i < |s.lru| ==> (test(s.lru[i]) <==> CleanAt(s, s.lru[i]))
    requires found ==> exists k :: OldestAt(s.lru, test, k) && s.lru[k] == o
    requires !found ==> s.lru != [] && o == s.lru[|s.lru| - 1] && forall i :: 0 <= i < |s.lru| ==> !test(s.lru[i])
    ensures Victim(s, o) && o in s.lru
  {
    if found {
      var k :| OldestAt(s.lru, test, k) && s.lru[k] == o;
      assert CleanAt(s, s.lru[k]);
    }
  }

  lemma NoKeys(m: map<int, Block>, q: seq<int>)
    requires m.Keys == set o | o in q
    ensures |m| == 0 <==> q == []
  {
    assert |m.Keys| == |m|;
    if q == [] {
      assert m.Keys == {};
    } else {
      assert q[0] in m.Keys;
    }
  }

  lemma DirtyNone(o: int, b: Block)
    requires BlockOk(o, b)
    ensures Bytes(b.dirty) == {} <==> b.dirty == []
  {
    FirstByte(b.dirty);
  }

  lemma EvictLegal(s: State, o: int)
    requires CleanAt(s, o)
    ensures Legal(s, Evict(o)) && Do(s, Evict(o)) == Drop(s, o)
    ensures Drop(s, o).blocks == s.blocks - {o}
  {
  }

  lemma PatchedBlockOk(o: int, b: Block, lo: int, src: seq<byte>, dirty: seq<Extent>)
    requires BlockOk(o, b) && 0 <= lo < lo + |src| <= BLOCK && Canonical(dirty)
    requires Bytes(dirty) == Bytes(b.dirty) + Span(lo, lo + |src|)
    ensures BlockOk(o, Block(Patch(b.data, lo, src), dirty))
  {
    hide Bytes, Canonical;
  }

  lemma WrittenNone(m: map<int, byte>, off: int)
    ensures Written(m, off, []) == m
  {
  }

  lemma AlignNonNegative(x: int)
    requires x >= 0
    ensures AlignDown(x) >= 0
  {
  }

  lemma SlotIsFast(states: seq<bool>, o: int)
    requires Aligned(o)
    ensures o in FastSet(states) <==> 0 <= o / BLOCK < |states| && states[o / BLOCK]
  {
    SlotIndex(o, |states|);
    if o in FastSet(states) {
      var i :| 0 <= i < |states| && states[i] && i * BLOCK == o;
      assert i == o / BLOCK;
    }
  }

  lemma LockedData(s: State, off: int, p: seq<byte>)
    requires Span(off, off + |p|) <= s.ranges
    requires forall x :: off <= x < off + |p| ==> Serves(s, x) && ByteAt(s, x) == p[x - off]
    ensures ReadLocked(s, off, |p|) == Data(p)
  {
    hide Serves, ByteAt;
    var n := |p|;
    var all := seq(n, i requires 0 <= i < n => ByteAt(s, off + i));
    forall i | 0 <= i < n
      ensures all[i] == p[i]
    {
      assert ByteAt(s, off + i) == p[off + i - off];
    }
    assert all == p;
  }

  lemma TrimmedBlockOk(o: int, b: Block, off: int, end: int, dirty: seq<Extent>)
    requires BlockOk(o, b) && off < end && Canonical(dirty)
    requires
      var lo := if off - o > 0 then off - o else 0;
      var hi := if end - o < BLOCK then end - o else BLOCK;
      Bytes(dirty) == Bytes(b.dirty) - Span(lo, hi)
    ensures BlockOk(o, Block(b.data, dirty)) && BlkOf(Block(b.data, dirty)) == TrimmedBlk(BlkOf(b), o, off, end)
  {
    hide Bytes, Canonical;
  }

  lemma AlignNext(b: int)
    requires Aligned(b)
    ensures Aligned(b + BLOCK)
  {
  }

  lemma FastSetRange(states: seq<bool>)
    ensures forall o :: o in FastSet(states) ==> Aligned(o) && 0 <= o < |states| * BLOCK
  {
    SlotsAligned(|states|);
  }

  lemma EdgeDisk(s: State, o: int)
    ensures DropIfEmpty(s, o).onDisk == s.onDisk
  {
  }

  lemma VisitedDisk(s: State, t: State, off: int, end: int, b: int)
    requires Visited(s, t, off, end, b)
    ensures t.onDisk == s.onDisk
  {
  }

  /** Slots of the touched blocks below b have been recomputed, the others are as in s. */
  ghost predicate MarkedTo(s: State, fast: set<int>, off: int, end: int, b: int) {
    forall o :: o in fast <==>
      if Touched(o, off, end) && o < b
      then HasSlot(s, o) && o !in s.blocks && FullyPresent(s.ranges, o)
      else o in s.fast
  }

  lemma MarkedStep(s: State, fast: set<int>, off: int, end: int, b: int)
    requires Ready(s) && MarkedTo(s, fast, off, end, b) && Touched(b, off, end)
    ensures MarkedTo(s, Mark(s.(fast := fast), b).fast, off, end, b + BLOCK)
    ensures Mark(s.(fast := fast), b) == s.(fast := Mark(s.(fast := fast), b).fast)
  {
    hide FullyPresent, AlignDown;
    var next := Mark(s.(fast := fast), b).fast;
    forall o
      ensures o in next <==>
        if Touched(o, off, end) && o < b + BLOCK
        then HasSlot(s, o) && o !in s.blocks && FullyPresent(s.ranges, o)
        else o in s.fast
    {
      assert o in fast <==>
        if Touched(o, off, end) && o < b
        then HasSlot(s, o) && o !in s.blocks && FullyPresent(s.ranges, o)
        else o in s.fast;
      if Touched(o, off, end) && b < o {
        AlignApart(b, o);
      }
    }
  }

  lemma MarkedAll(s: State, fast: set<int>, off: int, end: int, b: int)
    requires MarkedTo(s, fast, off, end, b) && end <= b
    ensures s.(fast := fast) == MarkTouched(s, off, end)
  {
    hide AlignDown, Aligned;
    forall o
      ensures o in fast <==> o in MarkTouched(s, off, end).fast
    {
      assert o in fast <==>
        if Touched(o, off, end) && o < b
        then HasSlot(s, o) && o !in s.blocks && FullyPresent(s.ranges, o)
        else o in s.fast;
    }
  }

  lemma DiscardFile(s: State, off: int, end: int)
    ensures Discard(s, off, end).file == s.file && Discard(s, off, end).ranges == s.ranges - Span(off, end)
  {
  }

  /** A discard and its punch, for a buffer that stands for m. */
  lemma DiscardedKeeps(s: State, g: seq<byte>, off: int, end: int, m: map<int, byte>, loose: set<int>)
    requires Inv(s, m, loose) && off < end && Punched(s.file, g, off, end)
    ensures Inv(Discard(s, off, end).(file := g), Erased(m, off, end), loose - Span(off, end))
  {
    hide Inv, Discard;
    DiscardFile(s, off, end);
    DiscardKeeps(s, off, end, m, loose);
    PunchKeeps(Discard(s, off, end), g, off, end, Erased(m, off, end), loose - Span(off, end));
  }

  lemma PunchedNone(m: map<int, byte>, loose: set<int>, ranges: set<int>)
    ensures m - {} == m && loose - {} == loose && ranges - {} == ranges
  {
  }

  lemma PunchNext(present: seq<Extent>, i: nat, m: map<int, byte>, loose: set<int>, ranges: set<int>)
    requires Canonical(present) && i < |present| && Bytes(present) <= ranges
    ensures
      var r := present[i];
      var done := Bytes(present[..i]);
      var more := Bytes(present[..i + 1]);
      && r.off < r.end && r.off in ranges - done && present[..i + 1] == present[..i] + [r]
      && Erased(m - done, r.off, r.end) == m - more
      && (loose - done) - Span(r.off, r.end) == loose - more
      && (ranges - done) - Span(r.off, r.end) == ranges - more
  {
    hide Bytes;
    BytesSplit(present, i);
    var r := present[i];
    assert r.off in Span(r.off, r.end);
  }

  lemma FewerLeft(was: set<int>, r: Extent)
    requires r.off < r.end
    ensures r.off in was ==> |was - Span(r.off, r.end)| < |was|
  {
    var now := was - Span(r.off, r.end);
    assert r.off in Span(r.off, r.end);
    assert |was - now| + |now| == |was|;
    if r.off in was {
      assert r.off in was - now;
    }
  }

  lemma NothingBehind(s: State, m: map<int, byte>, loose: set<int>, ceiling: int)
    ensures ceiling <= 0 ==> Span(0, ceiling) == {}
    ensures m - {} == m && loose - {} == loose && s.ranges * {} == {}
  {
  }

  lemma RangesLeft(was: set<int>, left: set<int>, gone: set<int>, ceiling: int)
    requires gone == was * Span(0, ceiling) && left == was - gone
    ensures left == was - Span(0, ceiling) && |was| - |left| == |gone|
  {
    assert |was| == |was - gone| + |gone|;
  }

  lemma BehindErased(s: State, t: State, m: map<int, byte>, loose: set<int>, gone: set<int>, ceiling: int)
    requires Inv(s, m, loose) && gone == s.ranges * Span(0, ceiling)
    requires Inv(t, m - gone, loose - gone) && t.ranges == s.ranges - gone
    ensures Inv(t, m - Span(0, ceiling), loose - Span(0, ceiling))
  {
    var behind := Span(0, ceiling);
    var m' := m - behind;
    var loose' := loose - behind;
    hide Tidy, IsDirty, ByteAt;
    forall x
      ensures Agrees(t, m', loose', x)
    {
      assert Agrees(s, m, loose, x);
      var m1 := m - gone;
      var loose1 := loose - gone;
      assert Agrees(t, m1, loose1, x);
    }
  }

  /** The file alone holds every byte of m whose last write did not fail. */
  ghost predicate Holds(file: seq<byte>, m: map<int, byte>, loose: set<int>) {
    forall x :: x in m && x !in loose ==> 0 <= x < |file| && file[x] == m[x]
  }

  lemma CleanFileHolds(s: State, m: map<int, byte>, loose: set<int>)
    requires Inv(s, m, loose) && forall o :: o in s.blocks ==> s.blocks[o].dirty == {}
    ensures Holds(s.file, m, loose)
  {
    forall x | x in m && x !in loose
      ensures 0 <= x < |s.file| && s.file[x] == m[x]
    {
      assert Agrees(s, m, loose, x);
    }
  }

  lemma FillLegal(s: State, o: int, junk: seq<byte>)
    requires o !in s.blocks && Aligned(o) && 0 <= o && |junk| == BLOCK
    ensures Legal(s, Fill(o, junk)) && Do(s, Fill(o, junk)) == Load(s, o, junk)
    ensures Load(s, o, junk).blocks.Keys == s.blocks.Keys + {o}
  {
  }

  lemma FreshBlockOk(o: int, data: seq<byte>)
    requires 0 <= o && Aligned(o) && |data| == BLOCK
    ensures BlockOk(o, Block(data, [])) && BlkOf(Block(data, [])) == Blk(data, {})
  {
  }

  lemma CleanBlockOk(o: int, b: Block)
    requires BlockOk(o, b)
    ensures BlockOk(o, b.(dirty := [])) && BlkOf(b.(dirty := [])) == Blk(b.data, {})
    ensures |b.data| == BLOCK && Bytes(b.dirty) <= Span(0, BLOCK)
  {
  }

  lemma PatchNothing(f: seq<byte>, off: int)
    requires off >= 0
    ensures Patch(f, off, []) == f
  {
  }

  lemma DoesNothing(s: State)
    ensures Does(s, [], s)
  {
  }

  lemma SpanNone(lo: int, hi: int)
    requires hi <= lo
    ensures Span(lo, hi) == {}
  {
  }
}
