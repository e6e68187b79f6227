/**
 internal/buffer/pool.go seen from all its buffers at once. Buffers run
 concurrently: a locked section of one, the pool's admission check, an eviction
 of its own blocks and the addition of a block are separate steps, and another
 buffer may step between any two of them.
 */
module PoolRuns {
  import opened BufferSpec

  /** Where a buffer's lock is: free, held, or held with a block about to be added. */
  datatype Phase = Idle | Inside | Admitted

  /**
   flagged: Close has won the closed flag; settled: Close's critical section is
   over. ceiling is maxBytes.
   */
  datatype Buf = Buf(blocks: nat, present: nat, ceiling: int, phase: Phase, flagged: bool, settled: bool)

  datatype PoolState = PoolState(memInUse: int, diskInUse: int, budget: int, bufs: seq<Buf>)

  /** What one buffer does to itself and the counters. */
  datatype Act =
    | Enter               // take the lock and pass the closed re-check
    | Leave
    | DropBlock           // evict or discard one block
    | Admit               // the check passes: room under ceiling and budget
    | AdmitAnyway         // only the pool is over, and nothing is left to evict
    | AddBlock
    | LoadFails
    | Insert(n: nat)      // rangesInsert found n new bytes
    | Remove(n: nat)      // rangesRemove found n bytes
    | Flag                // Close wins the flag
    | Settle              // Close's critical section
    | TooLate             // a section that finds the flag set, or a second Close

  datatype Step = Create(seeded: nat, ceiling: int) | At(i: nat, act: Act)

  predicate HasRoom(b: Buf) {
    (b.blocks + 1) * BLOCK <= b.ceiling
  }

  predicate WouldExceed(p: PoolState) {
    p.budget > 0 && p.memInUse + BLOCK > p.budget
  }

  predicate CanAct(p: PoolState, b: Buf, a: Act) {
    match a
    case Enter => b.phase == Idle && !b.flagged
    case Leave => b.phase == Inside
    case DropBlock => b.phase == Inside && b.blocks > 0
    case Admit => b.phase == Inside && HasRoom(b) && !WouldExceed(p)
    case AdmitAnyway => b.phase == Inside && HasRoom(b) && b.blocks == 0
    case AddBlock => b.phase == Admitted
    case LoadFails => b.phase == Admitted
    case Insert(_) => b.phase == Inside
    case Remove(n) => b.phase == Inside && n <= b.present
    case Flag => !b.flagged
    case Settle => b.phase == Idle && b.flagged && !b.settled
    case TooLate => b.flagged
  }

  /** The buffer afterwards, and by how much it moved memInUse and diskInUse. */
  function Acted(p: PoolState, b: Buf, a: Act): (Buf, int, int)
    requires CanAct(p, b, a)
  {
    match a
    case Enter => (b.(phase := Inside), 0, 0)
    case Leave => (b.(phase := Idle), 0, 0)
    case DropBlock => (b.(blocks := b.blocks - 1), -BLOCK, 0)
    case Admit => (b.(phase := Admitted), 0, 0)
    case AdmitAnyway => (b.(phase := Admitted), 0, 0)
    case AddBlock => (b.(blocks := b.blocks + 1, phase := Inside), BLOCK, 0)
    case LoadFails => (b.(phase := Inside), 0, 0)
    case Insert(n) => (b.(present := b.present + n), 0, n)
    case Remove(n) => (b.(present := b.present - n), 0, 0 - n)
    case Flag => (b.(flagged := true), 0, 0)
    case Settle => (b.(blocks := 0, present := 0, settled := true), 0 - b.blocks * BLOCK, 0 - b.present)
    case TooLate => (b, 0, 0)
  }

  predicate Can(p: PoolState, e: Step) {
    match e
    case Create(_, ceiling) => ceiling >= BLOCK
    case At(i, a) => i < |p.bufs| && CanAct(p, p.bufs[i], a)
  }

  function Do(p: PoolState, e: Step): PoolState
    requires Can(p, e)
  {
    match e
    case Create(seeded, ceiling) =>
      p.(diskInUse := p.diskInUse + seeded, bufs := p.bufs + [Buf(0, seeded, ceiling, Idle, false, false)])
    case At(i, a) =>
      var (b, dMem, dDisk) := Acted(p, p.bufs[i], a);
      p.(memInUse := p.memInUse + dMem, diskInUse := p.diskInUse + dDisk, bufs := p.bufs[i := b])
  }

  function Sum(bufs: seq<Buf>, f: Buf -> int): int {
    if bufs == [] then 0 else f(bufs[0]) + Sum(bufs[1..], f)
  }

  lemma {:induction false} SumUpdate(bufs: seq<Buf>, f: Buf -> int, i: nat, b: Buf)
    requires i < |bufs|
    ensures Sum(bufs[i := b], f) == Sum(bufs, f) - f(bufs[i]) + f(b)
  {
    if i == 0 {
      assert bufs[i := b][1..] == bufs[1..];
    } else {
      SumUpdate(bufs[1..], f, i - 1, b);
      assert bufs[i := b][1..] == bufs[1..][i - 1 := b];
    }
  }

  lemma {:induction false} SumAppend(bufs: seq<Buf>, f: Buf -> int, b: Buf)
    ensures Sum(bufs + [b], f) == Sum(bufs, f) + f(b)
  {
    if bufs == [] {
      assert [b][1..] == [] && bufs + [b] == [b];
    } else {
      SumAppend(bufs[1..], f, b);
      assert (bufs + [b])[1..] == bufs[1..] + [b];
    }
  }

  function Resident(b: Buf): int { b.blocks }
  function Present(b: Buf): int { b.present }
  function Pending(b: Buf): int { if b.phase == Admitted then 1 else 0 }
  /** Does the buffer hold a block, or is it about to add one? */
  function Holder(b: Buf): int { if b.blocks > 0 || b.phase == Admitted then 1 else 0 }

  predicate BufOk(b: Buf) {
    && b.blocks * BLOCK <= b.ceiling
    && (b.phase == Admitted ==> HasRoom(b))
    && (b.settled ==> b.flagged && b.phase == Idle && b.blocks == 0 && b.present == 0)
  }

  ghost predicate PoolInv(p: PoolState) {
    && (forall i :: 0 <= i < |p.bufs| ==> BufOk(p.bufs[i]))
    && p.memInUse == BLOCK * Sum(p.bufs, Resident)
    && p.diskInUse == Sum(p.bufs, Present)
    && (p.budget > 0 ==>
          p.memInUse + BLOCK * Sum(p.bufs, Pending) <= p.budget + BLOCK * Sum(p.bufs, Holder))
  }

  lemma {:induction false} PendingAtMostHolders(bufs: seq<Buf>)
    ensures 0 <= Sum(bufs, Pending) <= Sum(bufs, Holder) <= |bufs|
  {
    if bufs != [] {
      PendingAtMostHolders(bufs[1..]);
    }
  }

  lemma StepKeepsPool(p: PoolState, e: Step)
    requires PoolInv(p) && Can(p, e)
    ensures PoolInv(Do(p, e))
  {
    if e.Create? {
      CreateKeepsPool(p, e);
    } else {
      AtKeepsPool(p, e);
    }
  }

  lemma CreateKeepsPool(p: PoolState, e: Step)
    requires PoolInv(p) && Can(p, e) && e.Create?
    ensures PoolInv(Do(p, e))
  {
    var b := Buf(0, e.seeded, e.ceiling, Idle, false, false);
    PendingAtMostHolders(p.bufs);
    SumAppend(p.bufs, Resident, b);
    SumAppend(p.bufs, Present, b);
    SumAppend(p.bufs, Pending, b);
    SumAppend(p.bufs, Holder, b);
    hide Sum;
  }

  lemma AtKeepsPool(p: PoolState, e: Step)
    requires PoolInv(p) && Can(p, e) && e.At?
    ensures PoolInv(Do(p, e))
  {
    var b := Do(p, e).bufs[e.i];
    PendingAtMostHolders(p.bufs);
    SumUpdate(p.bufs, Resident, e.i, b);
    SumUpdate(p.bufs, Present, e.i, b);
    SumUpdate(p.bufs, Pending, e.i, b);
    SumUpdate(p.bufs, Holder, e.i, b);
    assert BufOk(p.bufs[e.i]);
    hide Sum;
    match e.act
    case Admit =>
    case AddBlock =>
    case DropBlock =>
    case Settle =>
    case _ =>
  }

  ghost predicate PoolRun(p: PoolState, es: seq<Step>, q: PoolState)
    decreases |es|
  {
    if es == [] then q == p else Can(p, es[0]) && PoolRun(Do(p, es[0]), es[1..], q)
  }

  /** What one buffer sees: the pool's two counters and its own record. */
  datatype Gauge = Gauge(mem: int, disk: int, b: Buf)

  function Pooled(budget: int, s: Gauge): PoolState {
    PoolState(s.mem, s.disk, budget, [s.b])
  }

  /** s becomes t by the acts of this buffer alone. */
  ghost predicate Acting(budget: int, s: Gauge, acts: seq<Act>, t: Gauge)
    decreases |acts|
  {
    if acts == [] then t == s
    else
      CanAct(Pooled(budget, s), s.b, acts[0]) && Acting(budget, After(budget, s, acts[0]), acts[1..], t)
  }

  function After(budget: int, s: Gauge, a: Act): Gauge
    requires CanAct(Pooled(budget, s), s.b, a)
  {
    var (b, dMem, dDisk) := Acted(Pooled(budget, s), s.b, a);
    Gauge(s.mem + dMem, s.disk + dDisk, b)
  }

  function Steps(i: nat, acts: seq<Act>): seq<Step> {
    seq(|acts|, k requires 0 <= k < |acts| => At(i, acts[k]))
  }

  /** The acts of one buffer are a run of the pool. */
  lemma {:induction false} ActingIsRun(p: PoolState, i: nat, acts: seq<Act>, t: Gauge)
    requires i < |p.bufs| && Acting(p.budget, Gauge(p.memInUse, p.diskInUse, p.bufs[i]), acts, t)
    ensures PoolRun(p, Steps(i, acts), PoolState(t.mem, t.disk, p.budget, p.bufs[i := t.b]))
    decreases |acts|
  {
    var s := Gauge(p.memInUse, p.diskInUse, p.bufs[i]);
    if acts == [] {
      assert p.bufs[i := t.b] == p.bufs;
    } else {
      var e := At(i, acts[0]);
      assert Can(p, e);
      var q := Do(p, e);
      ActingIsRun(q, i, acts[1..], t);
      assert q.bufs[i := t.b] == p.bufs[i := t.b];
      assert Steps(i, acts)[0] == e && Steps(i, acts)[1..] == Steps(i, acts[1..]);
    }
  }

  lemma {:induction false} ActingThen(budget: int, s: Gauge, a: seq<Act>, m: Gauge, b: seq<Act>, t: Gauge)
    requires Acting(budget, s, a, m) && Acting(budget, m, b, t)
    ensures Acting(budget, s, a + b, t)
    decreases |a|
  {
    hide CanAct, After;
    if a == [] {
      assert a + b == b;
    } else {
      ActingThen(budget, After(budget, s, a[0]), a[1..], m, b, t);
      assert (a + b)[1..] == a[1..] + b;
    }
  }

  lemma OneStep(p: PoolState, e: Step)
    requires Can(p, e)
    ensures PoolRun(p, [e], Do(p, e))
  {
    assert [e][0] == e && [e][1..] == [];
    assert PoolRun(Do(p, e), [], Do(p, e));
  }

  lemma {:induction false} RunThenRun(p: PoolState, a: seq<Step>, m: PoolState, b: seq<Step>, q: PoolState)
    requires PoolRun(p, a, m) && PoolRun(m, b, q)
    ensures PoolRun(p, a + b, q)
    decreases |a|
  {
    if a == [] {
      assert a + b == b;
    } else {
      hide Can, Do;
      RunThenRun(Do(p, a[0]), a[1..], m, b, q);
      assert (a + b)[1..] == a[1..] + b;
    }
  }

  function NewPool(budget: int): PoolState {
    PoolState(0, 0, budget, [])
  }

  lemma {:induction false} RunKeepsPool(p: PoolState, es: seq<Step>, q: PoolState)
    requires PoolInv(p) && PoolRun(p, es, q)
    ensures PoolInv(q) && q.budget == p.budget
    decreases |es|
  {
    if es != [] {
      StepKeepsPool(p, es[0]);
      hide PoolInv;
      RunKeepsPool(Do(p, es[0]), es[1..], q);
    }
  }

  /**
   From a new pool, after any interleaving of any number of buffers: pool RAM
   exceeds a positive budget by at most one block per buffer that holds or is
   about to add a block, and no buffer exceeds its own ceiling.
   */
  lemma BudgetHolds(budget: int, es: seq<Step>, q: PoolState)
    requires PoolRun(NewPool(budget), es, q)
    ensures budget > 0 ==> q.memInUse <= budget + BLOCK * Sum(q.bufs, Holder)
    ensures forall i :: 0 <= i < |q.bufs| ==> q.bufs[i].blocks * BLOCK <= q.bufs[i].ceiling
  {
    RunKeepsPool(NewPool(budget), es, q);
    PendingAtMostHolders(q.bufs);
    assert forall i :: 0 <= i < |q.bufs| ==> BufOk(q.bufs[i]);
  }

  /**
   Both counters are exact after any run, closed buffers count for nothing, and
   once Close has settled a buffer no step moves a counter through it again.
   */
  lemma CountersExact(budget: int, es: seq<Step>, q: PoolState)
    requires PoolRun(NewPool(budget), es, q)
    ensures q.memInUse == BLOCK * Sum(q.bufs, Resident) && q.diskInUse == Sum(q.bufs, Present)
    ensures forall i :: 0 <= i < |q.bufs| && q.bufs[i].settled ==> q.bufs[i].blocks == 0 && q.bufs[i].present == 0
    ensures forall e :: Can(q, e) && e.At? && q.bufs[e.i].settled ==>
      Do(q, e).memInUse == q.memInUse && Do(q, e).diskInUse == q.diskInUse && Do(q, e).bufs[e.i].settled
  {
    RunKeepsPool(NewPool(budget), es, q);
    assert forall i :: 0 <= i < |q.bufs| ==> BufOk(q.bufs[i]);
  }
}
