/**
 internal/buffer/pool.go on the heap: a pool and the buffers opened on it, each with
 objects of its own. A section is what one buffer does without letting go of its lock,
 or one step outside it; sections of different buffers, and of different calls on one
 buffer, may follow each other in any order. That is how a write or a discard comes to
 lose the race with Close.
 */
module PoolImpl {
  import opened Extents
  import opened BufferSpec
  import opened BufferRuns
  import opened BufferImpl
  import PoolRuns
  import PoolActs

  datatype Section =
    | WriteCached(o: int, lo: int, src: seq<byte>, junk: seq<byte>, readOk: bool)
    | Pwrite(off: int, src: seq<byte>)
    | Publish(o: int, lo: int, src: seq<byte>)
    | Discard(off: int, length: int)
    | Punch(off: int, length: int, noise: int -> byte)
    | Flush(visit: seq<int>)

  /** What a section may be asked for. */
  predicate Proper(a: Section) {
    match a
    case WriteCached(o, lo, src, junk, _) => Region(o, lo, src) && |junk| == BLOCK
    case Pwrite(off, _) => off >= 0
    case Publish(o, lo, src) => Region(o, lo, src)
    case Discard(_, length) => length > 0
    case Punch(_, _, _) => true
    case Flush(_) => true
  }

  function Whole(n: int): nat {
    if n > 0 then n else 0
  }

  /** A buffer as PoolRuns records it, between two sections. */
  function RecordOf(ram: int, disk: int, ceiling: int, closed: bool, settled: bool): PoolRuns.Buf {
    PoolRuns.Buf(Whole(ram) / BLOCK, Whole(disk), ceiling, PoolRuns.Idle, closed, settled)
  }

  function GaugeOf(b: Buffer): PoolRuns.Gauge
    reads b, b.pool
  {
    PoolRuns.Gauge(b.pool.memInUse, b.pool.diskInUse, RecordOf(b.bytesInRAM, b.diskBytes, b.maxBytes, b.closed, false))
  }

  lemma Counts(b: Buffer)
    requires b.Valid()
    ensures |b.View().blocks| == Whole(b.bytesInRAM) / BLOCK && b.bytesInRAM == BLOCK * |b.View().blocks|
    ensures b.diskBytes >= 0
  {
    hide Buffer.Valid, Buffer.View;
    b.Sized();
    b.DiskSized();
    b.Facts();
    assert |b.View().blocks.Keys| == |b.View().blocks| && |b.blocks.Keys| == |b.blocks|;
  }

  /** The cached write section, and what it is to the pool. */
  method ActCached(b: Buffer, o: int, lo: int, src: seq<byte>, junk: seq<byte>, readOk: bool)
    returns (ghost acts: seq<PoolRuns.Act>)
    requires !b.closed && b.Valid() && Region(o, lo, src) && |junk| == BLOCK
    modifies b.Repr(), b.pool
    ensures b.Valid() && !b.closed && fresh(b.Repr() - old(b.Repr()))
    ensures b.pool.memInUse - old(b.pool.memInUse) == b.bytesInRAM - old(b.bytesInRAM)
    ensures b.pool.diskInUse - old(b.pool.diskInUse) == b.diskBytes - old(b.diskBytes)
    ensures b.bytesInRAM <= old(b.bytesInRAM) || b.bytesInRAM <= b.maxBytes
    ensures old(b.file.script) == [] ==>
      b.file.script == [] && (b.bytesInRAM <= old(b.bytesInRAM) || b.pool.Within() || b.bytesInRAM == BLOCK)
    ensures old(b.file.script) == [] ==> PoolRuns.Acting(b.pool.memBudget, old(GaugeOf(b)), acts, GaugeOf(b))
  {
    hide Buffer.Valid, Buffer.View, Does, FillsLast, Loads, WriteInto, PoolActs.OfWrite;
    Counts(b);
    ghost var s, g := b.View(), GaugeOf(b);
    var st;
    ghost var tr, mid;
    st, tr, mid := b.WriteCached(o, lo, src, junk, readOk);
    Counts(b);
    ghost var delta := b.diskBytes - old(b.diskBytes);
    if st == Done {
      WrittenCount(mid, o, lo, src);
    }
    acts := PoolActs.OfWrite(tr, PoolActs.Over(b.pool.memBudget, b.pool.memInUse), delta);
    hide PoolRuns.Acting, PoolActs.OfWrite;
    if old(b.file.script) == [] {
      PoolActs.WriteActs(b.pool.memBudget, g, s, tr, mid, delta);
    }
  }

  lemma WrittenCount(s: State, o: int, lo: int, src: seq<byte>)
    requires o in s.blocks && 0 <= lo
    ensures |WriteInto(s, o, lo, src).blocks| == |s.blocks|
  {
    var t := WriteInto(s, o, lo, src);
    PoolActs.CountPut(s.blocks, o, t.blocks[o]);
    assert t.blocks == s.blocks[o := t.blocks[o]];
  }

  /** The publishing of a write-through. */
  method ActPublish(b: Buffer, o: int, lo: int, src: seq<byte>) returns (ghost acts: seq<PoolRuns.Act>)
    requires !b.closed && b.Valid() && Region(o, lo, src)
    modifies b.Repr(), b.pool
    ensures b.Valid() && !b.closed && fresh(b.Repr() - old(b.Repr())) && b.file.script == old(b.file.script)
    ensures b.pool.memInUse == old(b.pool.memInUse) && b.bytesInRAM == old(b.bytesInRAM)
    ensures b.pool.diskInUse - old(b.pool.diskInUse) == b.diskBytes - old(b.diskBytes)
    ensures PoolRuns.Acting(b.pool.memBudget, old(GaugeOf(b)), acts, GaugeOf(b))
  {
    hide Buffer.Valid, Buffer.View, BufferSpec.Publish;
    Counts(b);
    ghost var g := GaugeOf(b);
    var st := b.PublishWrite(o, lo, src);
    Counts(b);
    acts := PoolActs.OfRest(0, b.diskBytes - old(b.diskBytes));
    hide PoolRuns.Acting, PoolActs.OfRest;
    PoolActs.RestActs(b.pool.memBudget, g, 0, b.diskBytes - old(b.diskBytes));
  }

  /** The locked section of a discard. */
  method ActDiscard(b: Buffer, off: int, length: int) returns (ghost acts: seq<PoolRuns.Act>)
    requires !b.closed && b.Valid() && length > 0
    modifies b.Repr(), b.pool
    ensures b.Valid() && !b.closed && fresh(b.Repr() - old(b.Repr())) && b.file.script == old(b.file.script)
    ensures b.pool.memInUse - old(b.pool.memInUse) == b.bytesInRAM - old(b.bytesInRAM) <= 0
    ensures b.pool.diskInUse - old(b.pool.diskInUse) == b.diskBytes - old(b.diskBytes)
    ensures PoolRuns.Acting(b.pool.memBudget, old(GaugeOf(b)), acts, GaugeOf(b))
  {
    hide Buffer.Valid, Buffer.View, BufferSpec.Discard;
    Counts(b);
    ghost var g, was := GaugeOf(b), |b.View().blocks|;
    var removed, hadDisk := b.DiscardLocked(off, length);
    Counts(b);
    assert BLOCK * |b.View().blocks| <= BLOCK * was;
    ghost var drops := was - |b.View().blocks|;
    acts := PoolActs.OfRest(drops, b.diskBytes - old(b.diskBytes));
    hide PoolRuns.Acting, PoolActs.OfRest;
    PoolActs.RestActs(b.pool.memBudget, g, drops, b.diskBytes - old(b.diskBytes));
  }

  /**
   One section of one buffer: the pool's counters move exactly with the buffer's own, and
   if its disk fails no write, by acts of PoolRuns.
   */
  method Act(b: Buffer, a: Section) returns (ghost acts: seq<PoolRuns.Act>)
    requires (b.closed || b.Valid()) && Proper(a)
    modifies b.Repr(), b.pool
    ensures (old(b.Valid()) ==> b.Valid()) && b.closed == old(b.closed)
    ensures fresh(b.Repr() - old(b.Repr()))
    ensures b.pool.memInUse - old(b.pool.memInUse) == b.bytesInRAM - old(b.bytesInRAM)
    ensures b.pool.diskInUse - old(b.pool.diskInUse) == b.diskBytes - old(b.diskBytes)
    ensures b.closed ==> b.bytesInRAM == old(b.bytesInRAM) && b.diskBytes == old(b.diskBytes) && acts == []
    ensures b.bytesInRAM <= old(b.bytesInRAM) || b.bytesInRAM <= b.maxBytes
    ensures old(b.file.script) == [] ==>
      b.file.script == [] && (b.bytesInRAM <= old(b.bytesInRAM) || b.pool.Within() || b.bytesInRAM == BLOCK)
    ensures !b.closed && old(b.file.script) == [] ==>
      PoolRuns.Acting(b.pool.memBudget, old(GaugeOf(b)), acts, GaugeOf(b))
  {
    hide Buffer.Valid, Buffer.View;
    acts := [];
    if b.closed {
      ActClosed(b, a);
      return;
    }
    match a {
      case WriteCached(o, lo, src, junk, readOk) =>
        acts := ActCached(b, o, lo, src, junk, readOk);
      case Pwrite(off, src) =>
        var n, ok := b.Pwrite(off, src);
      case Publish(o, lo, src) =>
        acts := ActPublish(b, o, lo, src);
      case Discard(off, length) =>
        acts := ActDiscard(b, off, length);
      case Punch(off, length, noise) =>
        b.file.Punch(off, length, noise);
      case Flush(visit) =>
        // The order the map yields its blocks in: any, as long as it is all of them.
        if b.blocks.Keys == (set o | o in visit) {
          var st;
          ghost var tr;
          st, tr := b.Flush(visit);
        }
    }
  }

  /** A section that comes after Close. */
  method ActClosed(b: Buffer, a: Section)
    requires b.closed && Proper(a)
    modifies b.Repr(), b.pool
    ensures (old(b.Valid()) ==> b.Valid()) && b.closed && fresh(b.Repr() - old(b.Repr()))
    ensures b.pool.memInUse == old(b.pool.memInUse) && b.pool.diskInUse == old(b.pool.diskInUse)
    ensures b.bytesInRAM == old(b.bytesInRAM) && b.diskBytes == old(b.diskBytes)
    ensures old(b.file.script) == [] ==> b.file.script == []
  {
    hide Buffer.Valid, Buffer.View;
    match a {
      case WriteCached(o, lo, src, junk, readOk) =>
        var st;
        ghost var tr, mid;
        st, tr, mid := b.WriteCached(o, lo, src, junk, readOk);
      case Pwrite(off, src) =>
        var n, ok := b.Pwrite(off, src);
      case Publish(o, lo, src) =>
        var st := b.PublishWrite(o, lo, src);
      case Discard(off, length) =>
        var removed, hadDisk := b.DiscardLocked(off, length);
      case Punch(off, length, noise) =>
        b.file.Punch(off, length, noise);
      case Flush(visit) =>
        var st;
        ghost var tr;
        st, tr := b.Flush(visit);
    }
  }

  /** Setting the flag changes nothing else. */
  method SetFlag(b: Buffer)
    modifies b`closed
    ensures b.closed && b.Valid() == old(b.Valid()) && b.Repr() == old(b.Repr())
    ensures b.bytesInRAM == old(b.bytesInRAM) && b.diskBytes == old(b.diskBytes) && b.file.script == old(b.file.script)
  {
    b.closed := true;
    hide Buffer.Valid, Buffer.Repr;
    Untimed(b);
  }

  /** Neither a buffer's objects nor their order depend on the flag. */
  twostate lemma Untimed(b: Buffer)
    requires b.blocks == old(b.blocks) && b.bytesInRAM == old(b.bytesInRAM) && b.diskBytes == old(b.diskBytes)
    requires b.ranges == old(b.ranges) && b.onDisk == old(b.onDisk)
    requires unchanged(b.lru) && unchanged(b.ranges) && unchanged(b.onDisk) && unchanged(b.lru.repr)
    ensures b.Valid() == old(b.Valid()) && b.Repr() == old(b.Repr())
  {
  }

  /** Close's critical section. */
  method Finish(b: Buffer, visit: seq<int>)
    requires b.Valid() && b.closed && b.blocks.Keys == set o | o in visit
    modifies b.Repr(), b.pool
    ensures b.closed && b.bytesInRAM == 0 && b.diskBytes == 0 && fresh(b.Repr() - old(b.Repr()))
    ensures old(b.file.script) == [] ==> b.file.script == []
    ensures b.pool.memInUse == old(b.pool.memInUse) - old(b.bytesInRAM)
    ensures b.pool.diskInUse == old(b.pool.diskInUse) - old(b.diskBytes)
  {
    hide Buffer.Valid, Buffer.View;
    b.GiveUp(visit, map[], {});
  }

  /** newBuffer with a file of its own. */
  method NewOn(pool: Pool, bytes: seq<byte>, script: seq<Outcome>, memorySize: int, total: int, initial: seq<Extent>)
    returns (b: Buffer?)
    modifies pool`diskInUse
    ensures b == null <==> total < 0
    ensures b == null ==> pool.diskInUse == old(pool.diskInUse)
    ensures b != null ==>
      && fresh(b.Repr()) && b.file.script == script && b.Valid() && b.pool == pool && !b.closed && b.bytesInRAM == 0
      && b.maxBytes >= BLOCK && b.diskBytes >= 0
      && pool.diskInUse == old(pool.diskInUse) + b.diskBytes
  {
    hide Buffer.Valid, Buffer.View;
    var file := new Disk(bytes, script);
    b := Buffer.New(pool, file, memorySize, total, initial);
  }

  /** What nobody touched is as it was. */
  twostate lemma Untouched(b: Buffer)
    requires forall x :: x in old(b.Repr()) ==> unchanged(x)
    ensures Same(b)
  {
    assert b in old(b.Repr()) && b.lru in old(b.Repr()) && b.ranges in old(b.Repr());
    assert b.onDisk in old(b.Repr()) && b.file in old(b.Repr());
  }

  twostate predicate Same(b: Buffer)
    reads *
  {
    && b.Repr() == old(b.Repr()) && b.Valid() == old(b.Valid()) && b.View() == old(b.View())
    && b.bytesInRAM == old(b.bytesInRAM) && b.diskBytes == old(b.diskBytes)
    && b.closed == old(b.closed) && b.readHead == old(b.readHead) && b.file.script == old(b.file.script)
  }

  function Sum(s: seq<int>): int {
    if s == [] then 0 else Sum(s[..|s| - 1]) + s[|s| - 1]
  }

  lemma {:induction false} SumUpdate(s: seq<int>, k: nat, x: int)
    requires k < |s|
    ensures Sum(s[k := x]) == Sum(s) - s[k] + x
  {
    var init := s[..|s| - 1];
    if k == |s| - 1 {
      assert s[k := x][..|s| - 1] == init;
    } else {
      SumUpdate(init, k, x);
      assert s[k := x][..|s| - 1] == init[k := x];
    }
  }

  lemma SumAppend(s: seq<int>, x: int)
    ensures Sum(s + [x]) == Sum(s) + x
  {
    assert (s + [x])[..|s|] == s;
  }

  /** How many of the numbers are positive. */
  function Positive(s: seq<int>): nat {
    if s == [] then 0 else Positive(s[..|s| - 1]) + if s[|s| - 1] > 0 then 1 else 0
  }

  lemma {:induction false} PositiveUpdate(s: seq<int>, k: nat, x: int)
    requires k < |s|
    ensures Positive(s[k := x]) == Positive(s) - (if s[k] > 0 then 1 else 0) + if x > 0 then 1 else 0
  {
    var init := s[..|s| - 1];
    if k == |s| - 1 {
      assert s[k := x][..|s| - 1] == init;
    } else {
      PositiveUpdate(init, k, x);
      assert s[k := x][..|s| - 1] == init[k := x];
    }
  }

  lemma PositiveAppend(s: seq<int>, x: int)
    ensures Positive(s + [x]) == Positive(s) + if x > 0 then 1 else 0
  {
    assert (s + [x])[..|s|] == s;
  }

  /** A map's iteration order over the registered buffers. */
  ghost predicate Covers(order: seq<nat>, registered: set<nat>) {
    forall k :: k in order <==> k in registered
  }

  ghost function PresentsOf(bufs: seq<Buffer>): (r: seq<set<int>>)
    reads *
    ensures |r| == |bufs| && forall i :: 0 <= i < |bufs| ==> r[i] == bufs[i].View().ranges
  {
    if bufs == [] then [] else PresentsOf(bufs[..|bufs| - 1]) + [bufs[|bufs| - 1].View().ranges]
  }

  ghost function BehindsOf(bufs: seq<Buffer>, backWindow: int): (r: seq<set<int>>)
    reads *
    ensures |r| == |bufs| && forall i :: 0 <= i < |bufs| ==> r[i] == bufs[i].Behind(backWindow)
  {
    if bufs == [] then [] else BehindsOf(bufs[..|bufs| - 1], backWindow) + [bufs[|bufs| - 1].Behind(backWindow)]
  }

  /** One call of punchBehindWindow, and what it passed to OnEvict. */
  datatype Report = Report(k: nat, evicted: seq<Extent>)

  /** Everything reported of buffer i. */
  ghost function Reported(reports: seq<Report>, i: nat): set<int> {
    if reports == [] then {}
    else
      var last := reports[|reports| - 1];
      Reported(reports[..|reports| - 1], i) + if last.k == i then Bytes(last.evicted) else {}
  }

  /** From was to now each buffer lost, and reported, only bytes behind its window. */
  ghost predicate Reclaimed(was: seq<set<int>>, now: seq<set<int>>, behind: seq<set<int>>, reports: seq<Report>) {
    && |was| == |now| == |behind|
    && forall i :: 0 <= i < |was| ==>
        now[i] <= was[i] && was[i] - now[i] == Reported(reports, i) && Reported(reports, i) <= behind[i]
  }

  /** Nothing of buffer k is left behind its window. */
  ghost predicate Emptied(now: seq<set<int>>, behind: seq<set<int>>, k: nat) {
    k < |now| == |behind| && now[k] * behind[k] == {}
  }

  lemma ReclaimedNone(was: seq<set<int>>, behind: seq<set<int>>)
    requires |was| == |behind|
    ensures Reclaimed(was, was, behind, [])
  {
  }

  lemma ReclaimedOne(was: seq<set<int>>, now: seq<set<int>>, behind: seq<set<int>>, reports: seq<Report>, r: Report)
    requires Reclaimed(was, now, behind, reports) && r.k < |now|
    requires Bytes(r.evicted) == now[r.k] * behind[r.k]
    ensures Reclaimed(was, now[r.k := now[r.k] - behind[r.k]], behind, reports + [r])
    ensures Emptied(now[r.k := now[r.k] - behind[r.k]], behind, r.k)
    ensures forall i :: Emptied(now, behind, i) ==> Emptied(now[r.k := now[r.k] - behind[r.k]], behind, i)
  {
    hide Bytes;
    assert (reports + [r])[..|reports|] == reports;
    var left := now[r.k := now[r.k] - behind[r.k]];
    forall i | 0 <= i < |was|
      ensures left[i] <= was[i] && was[i] - left[i] == Reported(reports + [r], i) && Reported(reports + [r], i) <= behind[i]
    {
    }
  }

  /** punchBehindWindow of one buffer. */
  method PunchOf(b: Buffer, backWindow: int, noise: int -> byte) returns (reclaimed: nat, evicted: seq<Extent>)
    requires b.closed || b.Valid()
    modifies b.Repr(), b.pool
    ensures (old(b.Valid()) ==> b.Valid()) && b.closed == old(b.closed) && b.readHead == old(b.readHead)
    ensures fresh(b.Repr() - old(b.Repr()))
    ensures b.Behind(backWindow) == old(b.Behind(backWindow))
    ensures b.View().ranges == old(b.View().ranges) - b.Behind(backWindow)
    ensures Bytes(evicted) == old(b.View().ranges) * b.Behind(backWindow)
    ensures reclaimed == 0 <==> old(b.View().ranges) * b.Behind(backWindow) == {}
    ensures b.pool.memInUse - old(b.pool.memInUse) == b.bytesInRAM - old(b.bytesInRAM)
    ensures b.pool.diskInUse - old(b.pool.diskInUse) == b.diskBytes - old(b.diskBytes) == 0 - reclaimed
    ensures b.closed ==> b.bytesInRAM == old(b.bytesInRAM)
  {
    hide Buffer.Valid, Buffer.View, Buffer.Behind, Bytes, Inv;
    reclaimed, evicted := b.PunchBehindWindow(backWindow, noise, map[], {});
  }

  /** The pool with the buffers opened on it. */
  class Registry {
    const pool: Pool
    const diskLimit: int
    const backWindow: int
    var bufs: seq<Buffer>
    var registered: set<nat>   // those whose Close is not over
    var pending: set<nat>      // where Close has won the flag and its critical section is still to come

    constructor (memBudget: int, diskLimit: int, backWindow: int)
      ensures Valid() && bufs == [] && pool.memBudget == memBudget && fresh(pool)
      ensures this.diskLimit == diskLimit && this.backWindow == backWindow && NoErrors() && WithinBudget()
      ensures Shadow() == PoolRuns.NewPool(memBudget)
    {
      pool := new Pool(memBudget);
      this.diskLimit, this.backWindow := diskLimit, backWindow;
      bufs, registered, pending := [], {}, {};
    }

    /** No object belongs to two buffers. */
    ghost predicate Apart()
      reads *
    {
      && (forall i :: 0 <= i < |bufs| ==>
          bufs[i].pool == pool && pool !in bufs[i].Repr() && this !in bufs[i].Repr())
      && (forall i, j :: 0 <= i < j < |bufs| ==> bufs[i].Repr() !! bufs[j].Repr())
    }

    /** A buffer is in order until its Close is over, and holds nothing from then on. */
    ghost predicate InOrder(i: nat)
      requires i < |bufs|
      reads *
    {
      if i in registered then bufs[i].Valid() && (bufs[i].closed <==> i in pending)
      else bufs[i].closed && bufs[i].bytesInRAM == 0 && bufs[i].diskBytes == 0 && i !in pending
    }

    ghost function Rams(): seq<int>
      reads this, bufs
    {
      seq(|bufs|, i requires 0 <= i < |bufs| reads this, bufs => bufs[i].bytesInRAM)
    }

    ghost function Disks(): seq<int>
      reads this, bufs
    {
      seq(|bufs|, i requires 0 <= i < |bufs| reads this, bufs => bufs[i].diskBytes)
    }

    /** The pool's counters are the sums of the buffers' own. */
    ghost predicate Exact()
      reads this, bufs, pool
    {
      pool.memInUse == Sum(Rams()) && pool.diskInUse == Sum(Disks())
    }

    ghost predicate Valid()
      reads *
    {
      && Apart() && Exact()
      && (forall i :: 0 <= i < |bufs| ==> InOrder(i))
      && pending <= registered && (forall i :: i in registered ==> i < |bufs|)
    }

    /** No disk is going to fail a write. */
    ghost predicate NoErrors()
      reads *
    {
      forall i :: 0 <= i < |bufs| ==> bufs[i].file.script == []
    }

    /** Pool RAM is at most one block over the budget for every buffer that holds one. */
    ghost predicate WithinBudget()
      reads this, bufs, pool
    {
      pool.memBudget > 0 ==> pool.memInUse <= pool.memBudget + BLOCK * Positive(Rams())
    }

    ghost function Records(): seq<PoolRuns.Buf>
      reads this, bufs
    {
      seq(|bufs|, i requires 0 <= i < |bufs| reads this, bufs =>
        RecordOf(bufs[i].bytesInRAM, bufs[i].diskBytes, bufs[i].maxBytes, bufs[i].closed, i !in registered))
    }

    /** The pool and its buffers as PoolRuns sees them. */
    ghost function Shadow(): PoolRuns.PoolState
      reads this, bufs, pool
    {
      PoolRuns.PoolState(pool.memInUse, pool.diskInUse, pool.memBudget, Records())
    }

    /** Every object of every buffer. */
    ghost function Footprint(): set<object>
      reads *
    {
      set i, x | 0 <= i < |bufs| && x in bufs[i].Repr() :: x
    }

    /** Every buffer but the k-th is untouched. */
    twostate predicate OthersKept(k: nat)
      reads *
    {
      bufs == old(bufs) && forall i :: 0 <= i < |bufs| && i != k ==> Same(bufs[i])
    }

    /** A call that touches one buffer and the counters leaves the others alone. */
    twostate lemma SoOthersKept(k: nat)
      requires old(Apart()) && k < |bufs| && bufs == old(bufs)
      requires forall x: object ::
        old(allocated(x)) && x !in old(bufs[k].Repr()) && x != pool && x != this ==> unchanged(x)
      ensures OthersKept(k)
    {
      hide Buffer.Valid, Buffer.View;
      forall i | 0 <= i < |bufs| && i != k
        ensures Same(bufs[i])
      {
        assert old(bufs[i].Repr()) !! old(bufs[k].Repr());
        forall x | x in old(bufs[i].Repr())
          ensures unchanged(x)
        {
          assert x !in old(bufs[k].Repr()) && x != pool && x != this;
        }
        Untouched(bufs[i]);
      }
    }

    /** And if what that buffer gains is new, no object comes to belong to two. */
    twostate lemma SoApart(k: nat)
      requires old(Apart()) && k < |bufs| && OthersKept(k) && fresh(bufs[k].Repr() - old(bufs[k].Repr()))
      ensures Apart()
    {
      hide Buffer.Valid, Buffer.View;
    }

    /** The sums move with the one buffer. */
    twostate lemma SoSums(k: nat)
      requires k < |bufs| && OthersKept(k)
      ensures Sum(Rams()) == old(Sum(Rams())) - old(bufs[k].bytesInRAM) + bufs[k].bytesInRAM
      ensures Sum(Disks()) == old(Sum(Disks())) - old(bufs[k].diskBytes) + bufs[k].diskBytes
      ensures Positive(Rams()) ==
        old(Positive(Rams())) - (if old(bufs[k].bytesInRAM) > 0 then 1 else 0) + if bufs[k].bytesInRAM > 0 then 1 else 0
    {
      hide Buffer.Valid, Buffer.View, Buffer.Repr;
      var rams, disks := old(Rams()), old(Disks());
      SumUpdate(rams, k, bufs[k].bytesInRAM);
      SumUpdate(disks, k, bufs[k].diskBytes);
      PositiveUpdate(rams, k, bufs[k].bytesInRAM);
      assert Rams() == rams[k := bufs[k].bytesInRAM];
      assert Disks() == disks[k := bufs[k].diskBytes];
    }

    /** So the whole registry is in order again once that one buffer is. */
    twostate lemma SoValid(k: nat)
      requires k < |bufs| && old(Valid()) && OthersKept(k) && Apart() && InOrder(k)
      requires forall i :: i != k ==> (i in registered <==> i in old(registered)) && (i in pending <==> i in old(pending))
      requires pool.memInUse - old(pool.memInUse) == bufs[k].bytesInRAM - old(bufs[k].bytesInRAM)
      requires pool.diskInUse - old(pool.diskInUse) == bufs[k].diskBytes - old(bufs[k].diskBytes)
      ensures Valid()
    {
      hide Buffer.Valid, Buffer.View, Buffer.Repr, Apart;
      SoSums(k);
      forall i | 0 <= i < |bufs|
        ensures InOrder(i)
      {
        assert i != k ==> old(InOrder(i));
      }
    }

    /** The budget bound survives a section that either adds no block, or finds room, or adds the buffer's first. */
    twostate lemma SoWithin(k: nat)
      requires k < |bufs| && OthersKept(k) && old(WithinBudget())
      requires exists c: nat, d: nat :: old(bufs[k].bytesInRAM) == BLOCK * c && bufs[k].bytesInRAM == BLOCK * d
      requires pool.memInUse - old(pool.memInUse) == bufs[k].bytesInRAM - old(bufs[k].bytesInRAM)
      requires bufs[k].bytesInRAM <= old(bufs[k].bytesInRAM) || pool.Within() || bufs[k].bytesInRAM == BLOCK
      ensures WithinBudget()
    {
      hide OthersKept;
      SoSums(k);
    }

    /** Only the one buffer's record is another. */
    twostate lemma SoRecords(k: nat)
      requires k < |bufs| && OthersKept(k)
      requires forall i :: i != k ==> (i in registered <==> i in old(registered))
      ensures
        var b := bufs[k];
        Records() == old(Records())[k := RecordOf(b.bytesInRAM, b.diskBytes, b.maxBytes, b.closed, k !in registered)]
    {
      hide Buffer.Valid, Buffer.View, Buffer.Repr, RecordOf;
    }

    /** What the acts of one buffer are to the pool as a whole. */
    lemma Ran(was: PoolRuns.PoolState, k: nat, g: PoolRuns.Gauge, acts: seq<PoolRuns.Act>)
      requires Valid() && k < |bufs| == |was.bufs| && was.budget == pool.memBudget
      requires Records() == was.bufs[k := Records()[k]]
      requires !bufs[k].closed ==>
        g == PoolRuns.Gauge(was.memInUse, was.diskInUse, was.bufs[k])
        && PoolRuns.Acting(was.budget, g, acts, GaugeOf(bufs[k]))
      requires bufs[k].closed ==>
        acts == [] && pool.memInUse == was.memInUse && pool.diskInUse == was.diskInUse && Records()[k] == was.bufs[k]
      ensures PoolRuns.PoolRun(was, PoolRuns.Steps(k, acts), Shadow())
    {
      Recorded(k);
      hide Buffer.Valid, Buffer.View, Buffer.Repr, Valid, RecordOf, PoolRuns.Acting;
      if bufs[k].closed {
        assert was.bufs[k := was.bufs[k]] == was.bufs;
      } else {
        PoolRuns.ActingIsRun(was, k, acts, GaugeOf(bufs[k]));
      }
    }

    lemma ValidGives(k: nat)
      requires Valid() && k < |bufs|
      ensures Apart() && InOrder(k) && bufs[k].pool == pool && pool !in bufs[k].Repr() && bufs[k] in bufs[k].Repr()
      ensures bufs[k].closed || bufs[k].Valid()
      ensures k in pending ==> k in registered && bufs[k].Valid() && bufs[k].closed
    {
      hide Buffer.Valid;
    }

    lemma Blocks(k: nat)
      requires k < |bufs| && (InOrder(k) || bufs[k].Valid())
      ensures exists c: nat :: bufs[k].bytesInRAM == BLOCK * c
    {
      if k in registered || bufs[k].Valid() {
        bufs[k].Sized();
      } else {
        assert bufs[k].bytesInRAM == BLOCK * 0;
      }
    }

    /** A section of the k-th buffer. */
    method Step(k: nat, a: Section) returns (ghost steps: seq<PoolRuns.Step>)
      requires Valid() && k < |bufs| && Proper(a)
      modifies pool, bufs[k].Repr()
      ensures Valid() && OthersKept(k) && registered == old(registered) && pending == old(pending)
      ensures fresh(Footprint() - old(Footprint()))
      ensures old(NoErrors()) ==> NoErrors() && (old(WithinBudget()) ==> WithinBudget())
      ensures old(NoErrors()) ==> PoolRuns.PoolRun(old(Shadow()), steps, Shadow())
      ensures bufs[k].bytesInRAM <= old(bufs[k].bytesInRAM) || bufs[k].bytesInRAM <= bufs[k].maxBytes
    {
      ValidGives(k);
      hide Buffer.Valid, Buffer.View, Buffer.Repr, Valid, OthersKept, WithinBudget, Footprint, NoErrors;
      hide PoolRuns.Acting, PoolRuns.PoolRun, RecordOf, GaugeOf, Records;
      Recorded(k);
      ghost var was, g := Shadow(), GaugeOf(bufs[k]);
      ghost var acts := StepOf(k, a);
      steps := PoolRuns.Steps(k, acts);
      SoRecords(k);
      if old(NoErrors()) {
        Ran(was, k, g, acts);
      }
    }

    lemma Recorded(k: nat)
      requires Valid() && k < |bufs|
      ensures |Records()| == |bufs| && bufs[k].pool == pool && (!bufs[k].closed ==> k in registered)
      ensures k in registered ==> GaugeOf(bufs[k]) == PoolRuns.Gauge(pool.memInUse, pool.diskInUse, Records()[k])
      ensures
        var b := bufs[k];
        Records()[k] == RecordOf(b.bytesInRAM, b.diskBytes, b.maxBytes, b.closed, k !in registered)
    {
      assert InOrder(k);
      hide Buffer.Valid, Buffer.View, Buffer.Repr;
    }

    method StepOf(k: nat, a: Section) returns (ghost acts: seq<PoolRuns.Act>)
      requires Valid() && k < |bufs| && Proper(a)
      modifies pool, bufs[k].Repr()
      ensures Valid() && OthersKept(k) && registered == old(registered) && pending == old(pending)
      ensures fresh(Footprint() - old(Footprint()))
      ensures old(NoErrors()) ==> NoErrors() && (old(WithinBudget()) ==> WithinBudget())
      ensures old(NoErrors()) && !bufs[k].closed ==>
        PoolRuns.Acting(pool.memBudget, old(GaugeOf(bufs[k])), acts, GaugeOf(bufs[k]))
      ensures bufs[k].closed == old(bufs[k].closed)
      ensures
        bufs[k].closed ==>
          acts == [] && bufs[k].bytesInRAM == old(bufs[k].bytesInRAM) && bufs[k].diskBytes == old(bufs[k].diskBytes)
          && pool.memInUse == old(pool.memInUse) && pool.diskInUse == old(pool.diskInUse)
      ensures bufs[k].bytesInRAM <= old(bufs[k].bytesInRAM) || bufs[k].bytesInRAM <= bufs[k].maxBytes
    {
      ValidGives(k);
      Blocks(k);
      hide Buffer.Valid, Buffer.View, Buffer.Repr, Valid, OthersKept, WithinBudget, Pool.Within, Footprint;
      hide PoolRuns.Acting, GaugeOf;
      acts := Act(bufs[k], a);
      SoChanged(k);
    }

    twostate lemma SoFootprint(k: nat)
      requires k < |bufs| && OthersKept(k) && fresh(bufs[k].Repr() - old(bufs[k].Repr()))
      ensures fresh(Footprint() - old(Footprint()))
    {
      hide Buffer.Valid, Buffer.View, Buffer.Repr;
      forall x | x in Footprint() && x !in old(Footprint())
        ensures fresh(x)
      {
        var i :| 0 <= i < |bufs| && x in bufs[i].Repr();
        assert i == k;
      }
    }

    twostate lemma SoFootprintOpened(new b: Buffer)
      requires bufs == old(bufs) + [b] && fresh(b.Repr())
      requires forall i :: 0 <= i < |old(bufs)| ==> Same(old(bufs[i]))
      ensures fresh(Footprint() - old(Footprint()))
    {
      hide Buffer.Valid, Buffer.View, Buffer.Repr;
      forall x | x in Footprint() && x !in old(Footprint())
        ensures fresh(x)
      {
        forall j | 0 <= j < |old(bufs)|
          ensures x !in bufs[j].Repr()
        {
          assert bufs[j] == old(bufs[j]) && Same(old(bufs[j]));
        }
        var i :| 0 <= i < |bufs| && x in bufs[i].Repr();
      }
    }

    twostate lemma SoNoErrors(k: nat)
      requires k < |bufs| && OthersKept(k) && (old(bufs[k].file.script) == [] ==> bufs[k].file.script == [])
      ensures old(NoErrors()) ==> NoErrors()
    {
      hide Buffer.Valid, Buffer.View, Buffer.Repr;
    }

    /** All of it, once that one buffer is in order and its counters are settled with the pool. */
    twostate lemma SoChanged(k: nat)
      requires old(Valid()) && k < |bufs| && bufs == old(bufs) && InOrder(k)
      requires forall x: object ::
        old(allocated(x)) && x !in old(bufs[k].Repr()) && x != pool && x != this ==> unchanged(x)
      requires fresh(bufs[k].Repr() - old(bufs[k].Repr()))
      requires forall i :: i != k ==> (i in registered <==> i in old(registered)) && (i in pending <==> i in old(pending))
      requires pending <= registered
      requires pool.memInUse - old(pool.memInUse) == bufs[k].bytesInRAM - old(bufs[k].bytesInRAM)
      requires pool.diskInUse - old(pool.diskInUse) == bufs[k].diskBytes - old(bufs[k].diskBytes)
      requires exists c: nat :: old(bufs[k].bytesInRAM) == BLOCK * c
      ensures Valid() && OthersKept(k) && fresh(Footprint() - old(Footprint()))
      ensures old(NoErrors()) && bufs[k].file.script == [] ==> NoErrors()
      ensures
        old(WithinBudget()) && (bufs[k].bytesInRAM <= old(bufs[k].bytesInRAM) || pool.Within() || bufs[k].bytesInRAM == BLOCK)
        ==> WithinBudget()
    {
      hide Buffer.Valid, Buffer.View, Buffer.Repr, Apart, Exact, OthersKept, NoErrors, WithinBudget, Pool.Within;
      SoOthersKept(k);
      SoApart(k);
      SoValid(k);
      if old(NoErrors()) && bufs[k].file.script == [] {
        SoNoErrors(k);
      }
      SoFootprint(k);
      Blocks(k);
      if old(WithinBudget()) && (bufs[k].bytesInRAM <= old(bufs[k].bytesInRAM) || pool.Within() || bufs[k].bytesInRAM == BLOCK) {
        SoWithin(k);
      }
    }

    /** Close's first step: whoever sets the flag is the one to finish. */
    method Flag(k: nat) returns (won: bool, ghost steps: seq<PoolRuns.Step>)
      requires Valid() && k < |bufs|
      modifies this`pending, bufs[k]
      ensures Valid() && OthersKept(k) && registered == old(registered) && won == !old(bufs[k].closed)
      ensures pending == if won then old(pending) + {k} else old(pending)
      ensures bufs[k].closed
      ensures fresh(Footprint() - old(Footprint()))
      ensures pool.memInUse == old(pool.memInUse) && pool.diskInUse == old(pool.diskInUse)
      ensures (old(NoErrors()) ==> NoErrors()) && (old(WithinBudget()) ==> WithinBudget())
      ensures PoolRuns.PoolRun(old(Shadow()), steps, Shadow())
    {
      ValidGives(k);
      hide Buffer.Valid, Buffer.View, Buffer.Repr, Valid, OthersKept, NoErrors, WithinBudget, Footprint, Shadow;
      hide PoolRuns.PoolRun;
      won := !bufs[k].closed;
      if won {
        SetFlag(bufs[k]);
        pending := pending + {k};
      }
      steps := if won then [PoolRuns.At(k, PoolRuns.Flag)] else [];
      SoFlag(k);
    }

    twostate lemma SoFlag(k: nat)
      requires old(Valid()) && k < |bufs| && bufs == old(bufs) && registered == old(registered)
      requires forall x: object ::
        old(allocated(x)) && x !in old(bufs[k].Repr()) && x != pool && x != this ==> unchanged(x)
      requires pool.memInUse == old(pool.memInUse) && pool.diskInUse == old(pool.diskInUse)
      requires bufs[k].closed && bufs[k].Valid() == old(bufs[k].Valid()) && bufs[k].Repr() == old(bufs[k].Repr())
      requires bufs[k].bytesInRAM == old(bufs[k].bytesInRAM) && bufs[k].diskBytes == old(bufs[k].diskBytes)
      requires bufs[k].file.script == old(bufs[k].file.script)
      requires pending == if old(bufs[k].closed) then old(pending) else old(pending) + {k}
      ensures Valid() && OthersKept(k) && fresh(Footprint() - old(Footprint()))
      ensures (old(NoErrors()) ==> NoErrors()) && (old(WithinBudget()) ==> WithinBudget())
      ensures PoolRuns.PoolRun(old(Shadow()), if old(bufs[k].closed) then [] else [PoolRuns.At(k, PoolRuns.Flag)], Shadow())
    {
      hide Buffer.Valid, Buffer.View, Buffer.Repr, Apart, Exact, OthersKept, WithinBudget, PoolRuns.PoolRun;
      assert old(InOrder(k));
      Blocks(k);
      SoChanged(k);
      SoFlagged(k);
    }

    twostate lemma SoFlagged(k: nat)
      requires k < |bufs| && OthersKept(k) && registered == old(registered)
      requires old(!bufs[k].closed) ==> k in registered
      requires bufs[k].closed && bufs[k].bytesInRAM == old(bufs[k].bytesInRAM) && bufs[k].diskBytes == old(bufs[k].diskBytes)
      requires pool.memInUse == old(pool.memInUse) && pool.diskInUse == old(pool.diskInUse)
      ensures PoolRuns.PoolRun(old(Shadow()), if old(bufs[k].closed) then [] else [PoolRuns.At(k, PoolRuns.Flag)], Shadow())
    {
      hide Buffer.Valid, Buffer.View, Buffer.Repr;
      SoRecords(k);
      if old(bufs[k].closed) {
        assert Records() == old(Records());
      } else {
        var e := PoolRuns.At(k, PoolRuns.Flag);
        assert PoolRuns.Do(old(Shadow()), e) == Shadow();
        PoolRuns.OneStep(old(Shadow()), e);
      }
    }

    /** Close's last step, once per buffer: its share of both counters is given back. */
    method Settle(k: nat, visit: seq<int>) returns (ghost steps: seq<PoolRuns.Step>)
      requires Valid() && k < |bufs| && k in pending && bufs[k].blocks.Keys == set o | o in visit
      modifies this`pending, this`registered, pool, bufs[k].Repr()
      ensures Valid() && OthersKept(k) && registered == old(registered) - {k} && pending == old(pending) - {k}
      ensures bufs[k].bytesInRAM == 0 && bufs[k].diskBytes == 0 && bufs[k].closed
      ensures fresh(Footprint() - old(Footprint()))
      ensures old(NoErrors()) ==> NoErrors() && (old(WithinBudget()) ==> WithinBudget())
      ensures PoolRuns.PoolRun(old(Shadow()), steps, Shadow())
    {
      ValidGives(k);
      Blocks(k);
      hide Buffer.Valid, Buffer.View, Buffer.Repr, Valid, OthersKept, WithinBudget, Pool.Within;
      hide PoolRuns.PoolRun, RecordOf, Footprint, GaugeOf, Records, NoErrors;
      Recorded(k);
      ghost var was, ram, disk := Shadow(), bufs[k].bytesInRAM, bufs[k].diskBytes;
      Counts(bufs[k]);
      ghost var n := |bufs[k].View().blocks|;
      Finish(bufs[k], visit);
      registered, pending := registered - {k}, pending - {k};
      SoChanged(k);
      steps := [PoolRuns.At(k, PoolRuns.Settle)];
      SoRecords(k);
      Settled(was, k, n, ram, disk);
    }

    /** Giving the share back is the step that PoolRuns has for it. */
    lemma Settled(was: PoolRuns.PoolState, k: nat, n: nat, ram: int, disk: int)
      requires k < |was.bufs| && was.budget == pool.memBudget && k < |bufs| && ram == BLOCK * n && disk >= 0
      requires pool.memInUse == was.memInUse - ram && pool.diskInUse == was.diskInUse - disk
      requires was.bufs[k] == RecordOf(ram, disk, bufs[k].maxBytes, true, false)
      requires Records() == was.bufs[k := RecordOf(0, 0, bufs[k].maxBytes, true, true)]
      ensures PoolRuns.PoolRun(was, [PoolRuns.At(k, PoolRuns.Settle)], Shadow())
    {
      var e := PoolRuns.At(k, PoolRuns.Settle);
      assert was.bufs[k].blocks * BLOCK == ram;
      assert PoolRuns.Do(was, e) == Shadow();
      PoolRuns.OneStep(was, e);
    }

    ghost function Own(): set<object> {
      {this, pool}
    }

    /** What is made anew touches no buffer there is, and shares nothing with it. */
    twostate lemma SoApartFrom(new b: Buffer)
      requires old(Apart()) && fresh(b.Repr())
      requires forall x: object :: old(allocated(x)) && x !in Own() ==> unchanged(x)
      ensures forall i :: 0 <= i < |old(bufs)| ==> Same(old(bufs[i])) && old(bufs[i]).Repr() !! b.Repr()
      ensures pool !in b.Repr() && this !in b.Repr()
    {
      hide Buffer.Valid, Buffer.View;
      forall i | 0 <= i < |old(bufs)|
        ensures Same(old(bufs[i]))
      {
        forall x | x in old(bufs[i].Repr())
          ensures unchanged(x)
        {
          assert x !in Own();
        }
        Untouched(old(bufs[i]));
      }
    }

    /** So the registry is in order with the new buffer as its last. */
    twostate lemma SoOpened(new b: Buffer)
      requires old(Valid()) && bufs == old(bufs) + [b]
      requires registered == old(registered) + {|old(bufs)|} && pending == old(pending)
      requires forall i :: 0 <= i < |old(bufs)| ==> Same(old(bufs[i])) && old(bufs[i]).Repr() !! b.Repr()
      requires b.Valid() && b.pool == pool && !b.closed && pool !in b.Repr() && this !in b.Repr() && b.bytesInRAM == 0
      requires pool.memInUse == old(pool.memInUse) && pool.diskInUse == old(pool.diskInUse) + b.diskBytes
      ensures Valid() && (old(WithinBudget()) ==> WithinBudget())
      ensures old(NoErrors()) && b.file.script == [] ==> NoErrors()
    {
      hide Buffer.Valid, Buffer.View, Buffer.Repr, Rams, Disks;
      SoSumsOpened(b);
      forall i | 0 <= i < |old(bufs)|
        ensures bufs[i] == old(bufs[i]) && InOrder(i)
      {
        assert old(InOrder(i));
      }
    }

    twostate lemma SoSumsOpened(new b: Buffer)
      requires bufs == old(bufs) + [b] && b.bytesInRAM == 0
      requires forall i :: 0 <= i < |old(bufs)| ==> Same(old(bufs[i]))
      ensures Sum(Rams()) == old(Sum(Rams())) && Positive(Rams()) == old(Positive(Rams()))
      ensures Sum(Disks()) == old(Sum(Disks())) + b.diskBytes
    {
      hide Buffer.Valid, Buffer.View, Buffer.Repr;
      var rams, disks := old(Rams()), old(Disks());
      SumAppend(rams, 0);
      PositiveAppend(rams, 0);
      SumAppend(disks, b.diskBytes);
      assert Rams() == rams + [0] && Disks() == disks + [b.diskBytes];
    }

    twostate lemma SoRecorded(new b: Buffer)
      requires bufs == old(bufs) + [b] && registered == old(registered) + {|old(bufs)|}
      requires forall i :: i in old(registered) ==> i < |old(bufs)|
      requires forall i :: 0 <= i < |old(bufs)| ==> Same(old(bufs[i]))
      ensures Records() == old(Records()) + [RecordOf(b.bytesInRAM, b.diskBytes, b.maxBytes, b.closed, false)]
    {
      hide Buffer.Valid, Buffer.View, Buffer.Repr, RecordOf;
    }

    /** Opening a buffer is the pool's step that creates one. */
    twostate lemma SoCreated(new b: Buffer)
      requires bufs == old(bufs) + [b] && registered == old(registered) + {|old(bufs)|}
      requires forall i :: i in old(registered) ==> i < |old(bufs)|
      requires forall i :: 0 <= i < |old(bufs)| ==> Same(old(bufs[i]))
      requires b.bytesInRAM == 0 && b.diskBytes >= 0 && b.maxBytes >= BLOCK && !b.closed
      requires pool.memInUse == old(pool.memInUse) && pool.diskInUse == old(pool.diskInUse) + b.diskBytes
      ensures PoolRuns.PoolRun(old(Shadow()), [PoolRuns.Create(b.diskBytes, b.maxBytes)], Shadow())
    {
      hide Buffer.Valid, Buffer.View, Buffer.Repr;
      SoRecorded(b);
      var e := PoolRuns.Create(b.diskBytes, b.maxBytes);
      assert PoolRuns.Do(old(Shadow()), e) == Shadow();
      PoolRuns.OneStep(old(Shadow()), e);
    }

    twostate lemma SoAllSame()
      requires old(Apart()) && bufs == old(bufs)
      requires forall x: object :: old(allocated(x)) && x !in Own() ==> unchanged(x)
      ensures forall i :: 0 <= i < |bufs| ==> Same(bufs[i])
    {
      hide Buffer.Valid, Buffer.View;
      forall i | 0 <= i < |bufs|
        ensures Same(bufs[i])
      {
        forall x | x in old(bufs[i].Repr())
          ensures unchanged(x)
        {
          assert x !in Own();
        }
        Untouched(bufs[i]);
      }
    }

    /** A refused buffer changes nothing. */
    twostate lemma SoStill()
      requires old(Valid()) && bufs == old(bufs) && registered == old(registered) && pending == old(pending)
      requires forall x: object :: old(allocated(x)) && x !in Own() ==> unchanged(x)
      requires pool.memInUse == old(pool.memInUse) && pool.diskInUse == old(pool.diskInUse)
      ensures Valid() && fresh(Footprint() - old(Footprint()))
      ensures (old(NoErrors()) ==> NoErrors()) && (old(WithinBudget()) ==> WithinBudget())
      ensures PoolRuns.PoolRun(old(Shadow()), [], Shadow())
    {
      hide Buffer.Valid, Buffer.View, Buffer.Repr, RecordOf;
      SoAllSame();
      assert Rams() == old(Rams()) && Disks() == old(Disks()) && Records() == old(Records());
      forall i | 0 <= i < |bufs|
        ensures InOrder(i)
      {
        assert old(InOrder(i));
      }
    }

    twostate lemma SoTaken(new b: Buffer)
      requires old(Valid()) && bufs == old(bufs) + [b] && registered == old(registered) + {|old(bufs)|}
      requires pending == old(pending) && fresh(b.Repr())
      requires forall x: object :: old(allocated(x)) && x !in Own() ==> unchanged(x)
      requires b.Valid() && b.pool == pool && !b.closed && b.bytesInRAM == 0 && b.diskBytes >= 0 && b.maxBytes >= BLOCK
      requires pool.memInUse == old(pool.memInUse) && pool.diskInUse == old(pool.diskInUse) + b.diskBytes
      ensures Valid() && fresh(Footprint() - old(Footprint())) && (old(WithinBudget()) ==> WithinBudget())
      ensures old(NoErrors()) && b.file.script == [] ==> NoErrors()
      ensures PoolRuns.PoolRun(old(Shadow()), [PoolRuns.Create(b.diskBytes, b.maxBytes)], Shadow())
    {
      hide Buffer.Valid, Buffer.View, Buffer.Repr, NoErrors, WithinBudget, PoolRuns.PoolRun, InOrder, Apart;
      SoApartFrom(b);
      SoOpened(b);
      SoFootprintOpened(b);
      SoCreated(b);
    }

    /** NewBuffer: a buffer with its own file; the bytes it is seeded with count from now on. */
    method Open(bytes: seq<byte>, script: seq<Outcome>, memorySize: int, total: int, initial: seq<Extent>)
      returns (ok: bool, ghost steps: seq<PoolRuns.Step>)
      requires Valid()
      modifies this`bufs, this`registered, pool`diskInUse
      ensures Valid() && ok == (total >= 0) && pending == old(pending)
      ensures ok ==> |bufs| == |old(bufs)| + 1 && bufs[..|old(bufs)|] == old(bufs)
      ensures ok ==> registered == old(registered) + {|old(bufs)|}
      ensures fresh(Footprint() - old(Footprint()))
      ensures !ok ==> bufs == old(bufs) && registered == old(registered)
      ensures (old(WithinBudget()) ==> WithinBudget()) && (old(NoErrors()) && script == [] ==> NoErrors())
      ensures PoolRuns.PoolRun(old(Shadow()), steps, Shadow())
    {
      hide Buffer.Valid, Buffer.View, Buffer.Repr, Valid, NoErrors, WithinBudget, PoolRuns.PoolRun, Shadow, Footprint;
      var b := NewOn(pool, bytes, script, memorySize, total, initial);
      ok := b != null;
      steps := [];
      if !ok {
        SoStill();
      } else {
        registered := registered + {|bufs|};
        bufs := bufs + [b];
        steps := [PoolRuns.Create(b.diskBytes, b.maxBytes)];
        SoTaken(b);
      }
    }

    /** The bytes present in each buffer. */
    ghost function Presents(): seq<set<int>>
      reads *
    {
      PresentsOf(bufs)
    }

    ghost function Behinds(): seq<set<int>>
      reads *
    {
      BehindsOf(bufs, backWindow)
    }

    lemma Sizes()
      ensures |Presents()| == |bufs| == |Behinds()|
    {
    }

    method PunchKth(k: nat, noise: int -> byte) returns (reclaimed: nat, evicted: seq<Extent>)
      requires Valid() && k < |bufs|
      modifies pool, bufs[k].Repr()
      ensures Valid() && OthersKept(k) && registered == old(registered) && pending == old(pending)
      ensures bufs[k].Behind(backWindow) == old(bufs[k].Behind(backWindow))
      ensures bufs[k].View().ranges == old(bufs[k].View().ranges) - bufs[k].Behind(backWindow)
      ensures Bytes(evicted) == old(bufs[k].View().ranges) * bufs[k].Behind(backWindow)
      ensures reclaimed == 0 <==> old(bufs[k].View().ranges) * bufs[k].Behind(backWindow) == {}
      ensures pool.diskInUse == old(pool.diskInUse) - reclaimed
      ensures fresh(Footprint() - old(Footprint()))
    {
      ValidGives(k);
      Blocks(k);
      hide Buffer.Valid, Buffer.View, Buffer.Repr, Valid, Apart, Exact, OthersKept, Bytes, Footprint, Buffer.Behind, Span;
      reclaimed, evicted := PunchOf(bufs[k], backWindow, noise);
      SoChanged(k);
    }

    /** punchBehindWindow of the k-th buffer, as reclaimDisk calls it. */
    method PunchBehind(k: nat, noise: int -> byte) returns (reclaimed: nat, report: Report)
      requires Valid() && k < |bufs| && |Presents()| == |bufs| == |Behinds()|
      modifies pool, bufs[k].Repr()
      ensures Valid() && bufs == old(bufs) && registered == old(registered) && pending == old(pending)
      ensures Behinds() == old(Behinds())
      ensures Presents() == old(Presents())[k := old(Presents())[k] - Behinds()[k]]
      ensures report.k == k && Bytes(report.evicted) == old(Presents())[k] * Behinds()[k]
      ensures reclaimed == 0 <==> old(Presents())[k] * Behinds()[k] == {}
      ensures pool.diskInUse == old(pool.diskInUse) - reclaimed
      ensures fresh(Footprint() - old(Footprint()))
    {
      hide Buffer.Valid, Buffer.View, Buffer.Repr, Valid, Bytes, Footprint, Buffer.Behind, PresentsOf, BehindsOf;
      var evicted;
      reclaimed, evicted := PunchKth(k, noise);
      report := Report(k, evicted);
      SoPresents(k);
      SoBehinds(k);
    }

    twostate lemma SoPresents(k: nat)
      requires k < |bufs| && OthersKept(k)
      ensures old(|Presents()|) == |bufs| && old(Presents()[k]) == old(bufs[k].View().ranges)
      ensures Presents() == old(Presents())[k := bufs[k].View().ranges]
    {
      hide Buffer.Valid, Buffer.View, Buffer.Repr, PresentsOf, BehindsOf;
    }

    twostate lemma SoBehinds(k: nat)
      requires k < |bufs| && OthersKept(k)
      requires bufs[k].Behind(backWindow) == old(bufs[k].Behind(backWindow))
      ensures |Behinds()| == |bufs| && Behinds()[k] == bufs[k].Behind(backWindow)
      ensures Behinds() == old(Behinds())
    {
      hide Buffer.Valid, Buffer.View, Buffer.Repr, PresentsOf, BehindsOf;
    }

    /** Nothing that may be taken is present behind the window of any registered buffer. */
    ghost predicate NothingBehind()
      reads *
    {
      forall k :: k in registered && k < |bufs| ==> bufs[k].View().ranges * bufs[k].Behind(backWindow) == {}
    }

    /** A pass that has been to the first j buffers of its order. */
    ghost predicate Passing(order: seq<nat>, j: nat, was: seq<set<int>>, behind: seq<set<int>>, reports: seq<Report>)
      reads *
    {
      && Valid() && Behinds() == behind && Reclaimed(was, Presents(), behind, reports)
      && j <= |order| && (forall i :: 0 <= i < |order| ==> order[i] < |bufs|)
      && (forall i :: 0 <= i < j ==> Emptied(Presents(), behind, order[i]))
    }

    /** One buffer of one pass. */
    method PassOne(order: seq<nat>, j: nat, noise: int -> byte, ghost was: seq<set<int>>, ghost behind: seq<set<int>>,
                   ghost reports: seq<Report>)
      returns (reclaimed: nat, report: Report)
      requires Passing(order, j, was, behind, reports) && j < |order|
      modifies pool, Footprint()
      ensures Passing(order, j + 1, was, behind, reports + [report])
      ensures bufs == old(bufs) && registered == old(registered) && pending == old(pending)
      ensures pool.diskInUse == old(pool.diskInUse) - reclaimed
      ensures fresh(Footprint() - old(Footprint()))
    {
      hide Buffer.Valid, Buffer.View, Buffer.Repr, Valid, Bytes, Buffer.Behind, Reclaimed, Emptied;
      hide Presents, Behinds, PresentsOf, BehindsOf;
      Sizes();
      ghost var now := Presents();
      reclaimed, report := PunchBehind(order[j], noise);
      hide Passing;
      PassedOne(order, j, was, now, behind, reports, report);
    }

    lemma PassedOne(order: seq<nat>, j: nat, was: seq<set<int>>, now: seq<set<int>>, behind: seq<set<int>>,
                    reports: seq<Report>, report: Report)
      requires Valid() && Behinds() == behind && j < |order| && (forall i :: 0 <= i < |order| ==> order[i] < |bufs|)
      requires Reclaimed(was, now, behind, reports) && |now| == |bufs|
      requires forall i :: 0 <= i < j ==> Emptied(now, behind, order[i])
      requires report.k == order[j] && order[j] < |behind| && Bytes(report.evicted) == now[order[j]] * behind[order[j]]
      requires Presents() == now[order[j] := now[order[j]] - behind[order[j]]]
      ensures Passing(order, j + 1, was, behind, reports + [report])
    {
      hide Buffer.Valid, Buffer.View, Buffer.Repr, Valid, Bytes, Buffer.Behind, Reclaimed, Emptied;
      hide Presents, Behinds, PresentsOf, BehindsOf;
      ReclaimedOne(was, now, behind, reports, report);
    }

    /** One pass over the registered buffers; it stops early under the limit. */
    method Pass(order: seq<nat>, noise: int -> byte, ghost was: seq<set<int>>, ghost before: seq<Report>)
      returns (reclaimed: nat, reports: seq<Report>)
      requires Valid() && Covers(order, registered) && Reclaimed(was, Presents(), Behinds(), before)
      modifies pool, Footprint()
      ensures Valid() && bufs == old(bufs) && registered == old(registered) && pending == old(pending)
      ensures Behinds() == old(Behinds()) && Reclaimed(was, Presents(), Behinds(), before + reports)
      ensures pool.diskInUse == old(pool.diskInUse) - reclaimed
      ensures pool.diskInUse <= diskLimit || NothingBehind()
      ensures fresh(Footprint() - old(Footprint()))
    {
      hide Buffer.Valid, Buffer.View, Buffer.Repr, Valid, Footprint, Passing, Reclaimed, Covers, NothingBehind;
      hide Presents, Behinds, PresentsOf, BehindsOf;
      ghost var mine, behind := Footprint(), Behinds();
      reclaimed, reports := 0, [];
      assert before + reports == before;
      SetsOut(order, was, before);
      for j := 0 to |order|
        invariant Passing(order, j, was, behind, before + reports)
        invariant bufs == old(bufs) && registered == old(registered) && pending == old(pending)
        invariant pool.diskInUse == old(pool.diskInUse) - reclaimed
        invariant forall x :: x in Footprint() ==> x in mine || fresh(x)
      {
        ghost var pre := Footprint();
        label step:
        var n, report := PassOne(order, j, noise, was, behind, before + reports);
        forall x | x in Footprint() && x !in pre
          ensures fresh(x)
        {
          assert x in Footprint() - pre;
          assert fresh@step(x);
        }
        assert before + (reports + [report]) == before + reports + [report];
        reclaimed, reports := reclaimed + n, reports + [report];
        if pool.diskInUse <= diskLimit {
          Stops(order, j + 1, was, behind, before + reports);
          return;
        }
      }
      Stops(order, |order|, was, behind, before + reports);
    }

    /**
     reclaimDisk, with no writer running meanwhile: it terminates; each buffer loses, and
     reports, only bytes behind its window; and it ends under the limit, with no buffer
     registered, or with nothing present behind the window of any registered one.
     */
    method ReclaimDisk(orders: nat -> seq<nat>, noise: int -> byte) returns (reports: seq<Report>)
      requires Valid() && forall p :: Covers(orders(p), registered)
      modifies pool, Footprint()
      ensures Valid() && bufs == old(bufs) && registered == old(registered) && pending == old(pending)
      ensures Behinds() == old(Behinds()) && Reclaimed(old(Presents()), Presents(), Behinds(), reports)
      ensures diskLimit <= 0 || pool.diskInUse <= diskLimit || registered == {} || NothingBehind()
      ensures diskLimit <= 0 || old(pool.diskInUse) <= diskLimit ==> reports == []
    {
      Sizes();
      ghost var was, behind, mine := Presents(), Behinds(), Footprint();
      ReclaimedNone(was, behind);
      hide Buffer.Valid, Buffer.View, Buffer.Repr, Valid, Footprint, Reclaimed, Covers, NothingBehind, Presents, Behinds;
      reports := [];
      if diskLimit <= 0 {
        return;
      }
      var pass: nat := 0;
      while pool.diskInUse > diskLimit
        invariant Valid() && bufs == old(bufs) && registered == old(registered) && pending == old(pending)
        invariant Behinds() == behind && Reclaimed(was, Presents(), behind, reports)
        invariant forall x :: x in Footprint() ==> x in mine || fresh(x)
        invariant old(pool.diskInUse) <= diskLimit ==> reports == []
        decreases pool.diskInUse
      {
        if registered == {} {
          return;
        }
        ghost var pre := Footprint();
        label start:
        var n, more := Pass(orders(pass), noise, was, reports);
        forall x | x in Footprint() && x !in pre
          ensures fresh(x)
        {
          assert x in Footprint() - pre;
          assert fresh@start(x);
        }
        reports := reports + more;
        if pool.diskInUse <= diskLimit || n == 0 {
          return;
        }
        pass := pass + 1;
      }
    }

    lemma SetsOut(order: seq<nat>, was: seq<set<int>>, reports: seq<Report>)
      requires Valid() && Covers(order, registered) && Reclaimed(was, Presents(), Behinds(), reports)
      ensures Passing(order, 0, was, Behinds(), reports)
    {
      InRange();
      hide Buffer.Valid, Buffer.View, Buffer.Behind, Presents, Behinds, Reclaimed;
      assert forall i :: 0 <= i < |order| ==> order[i] in order;
    }

    lemma Stops(order: seq<nat>, j: nat, was: seq<set<int>>, behind: seq<set<int>>, reports: seq<Report>)
      requires Passing(order, j, was, behind, reports) && Covers(order, registered)
      ensures Valid() && Behinds() == behind && Reclaimed(was, Presents(), behind, reports)
      ensures j == |order| ==> NothingBehind()
    {
      hide Buffer.Valid, Buffer.View, Buffer.Behind, Reclaimed, NothingBehind;
      if j == |order| {
        Nothing(order);
      }
    }

    lemma Nothing(order: seq<nat>)
      requires Covers(order, registered)
      requires forall i :: 0 <= i < |order| ==> Emptied(Presents(), Behinds(), order[i])
      ensures NothingBehind()
    {
      hide Buffer.Valid, Buffer.View, Buffer.Behind;
      forall k | k in registered && k < |bufs|
        ensures bufs[k].View().ranges * bufs[k].Behind(backWindow) == {}
      {
        var i :| 0 <= i < |order| && order[i] == k;
        assert Emptied(Presents(), Behinds(), order[i]);
      }
    }

    lemma InRange()
      requires Valid()
      ensures forall i :: i in registered ==> i < |bufs|
    {
      hide Buffer.Valid, Buffer.View, Buffer.Repr;
    }
  }

  /** What callers may do with a pool, section by section. */
  datatype Call =
    | Opens(bytes: seq<byte>, script: seq<Outcome>, memorySize: int, total: int, initial: seq<Extent>)
    | Works(k: nat, a: Section)
    | Flags(k: nat)
    | Settles(k: nat, visit: seq<int>)

  ghost predicate Faultless(es: seq<Call>) {
    forall j :: 0 <= j < |es| && es[j].Opens? ==> es[j].script == []
  }

  /**
   Any sequence of openings, sections and the two steps of Close, over any number of
   buffers, a section of a closed buffer and a second Close included: memInUse stays the
   sum of the bytes the buffers hold in RAM, diskInUse that of the bytes present in them;
   and if no disk fails a write, RAM stays within a block per holding buffer of the
   budget, and all that happened is a run of PoolRuns.
   */
  method Drive(r: Registry, es: seq<Call>) returns (ghost steps: seq<PoolRuns.Step>)
    requires r.Valid()
    modifies r, r.pool, r.Footprint()
    ensures r.Valid()
    ensures old(r.NoErrors() && r.WithinBudget()) && Faultless(es) ==> r.NoErrors() && r.WithinBudget()
    ensures old(r.NoErrors()) && Faultless(es) ==> PoolRuns.PoolRun(old(r.Shadow()), steps, r.Shadow())
  {
    hide Buffer.Valid, Buffer.View, Buffer.Repr, Registry.Valid, Registry.NoErrors, Registry.WithinBudget, Registry.Footprint;
    hide Registry.Shadow, PoolRuns.PoolRun;
    ghost var mine := r.Footprint();
    steps := [];
    NoRun(r.Shadow());
    for j := 0 to |es|
      invariant r.Valid() && forall x :: x in r.Footprint() ==> x in mine || fresh(x)
      invariant old(r.NoErrors()) && Faultless(es) ==> r.NoErrors() && (old(r.WithinBudget()) ==> r.WithinBudget())
      invariant old(r.NoErrors()) && Faultless(es) ==> PoolRuns.PoolRun(old(r.Shadow()), steps, r.Shadow())
    {
      ghost var pre, shadow := r.Footprint(), r.Shadow();
      label before:
      ghost var more := Perform(r, es[j]);
      forall x | x in r.Footprint() && x !in pre
        ensures fresh(x)
      {
        assert x in r.Footprint() - pre;
        assert fresh@before(x);
      }
      if old(r.NoErrors()) && Faultless(es) {
        PoolRuns.RunThenRun(old(r.Shadow()), steps, shadow, more, r.Shadow());
      }
      steps := steps + more;
    }
  }

  lemma NoRun(p: PoolRuns.PoolState)
    ensures PoolRuns.PoolRun(p, [], p)
  {
  }

  /** One of them; what is not there, or not in order to be asked, is passed over. */
  method Perform(r: Registry, e: Call) returns (ghost steps: seq<PoolRuns.Step>)
    requires r.Valid()
    modifies r, r.pool, r.Footprint()
    ensures r.Valid() && fresh(r.Footprint() - old(r.Footprint()))
    ensures old(r.NoErrors()) && (e.Opens? ==> e.script == []) ==> r.NoErrors() && (old(r.WithinBudget()) ==> r.WithinBudget())
    ensures old(r.NoErrors()) ==> PoolRuns.PoolRun(old(r.Shadow()), steps, r.Shadow())
  {
    hide Buffer.Valid, Buffer.View, Buffer.Repr, Registry.Valid, Registry.NoErrors, Registry.WithinBudget;
    hide Registry.Shadow, PoolRuns.PoolRun;
    steps := [];
    NoRun(r.Shadow());
    match e {
      case Opens(bytes, script, memorySize, total, initial) =>
        var ok;
        ok, steps := r.Open(bytes, script, memorySize, total, initial);
      case Works(k, a) =>
        if k < |r.bufs| && Proper(a) {
          steps := r.Step(k, a);
        }
      case Flags(k) =>
        if k < |r.bufs| {
          r.ValidGives(k);
          var won;
          won, steps := r.Flag(k);
        }
      case Settles(k, visit) =>
        if k < |r.bufs| && k in r.pending && r.bufs[k].blocks.Keys == (set o | o in visit) {
          steps := r.Settle(k, visit);
        }
    }
  }
}
