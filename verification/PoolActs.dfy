/**
 What the steps of a locked section of a Buffer mean to its pool: an eviction drops one
 block from the counter, a load adds one behind an admission check, and the rest of a
 section's internal steps are nothing to it.
 */
module PoolActs {
  import opened BufferSpec
  import opened BufferRuns
  import PoolRuns

  /** The acts of a section's internal steps; `anyway` says how the admission check was passed. */
  function ActsOf(tr: seq<Event>, anyway: bool): seq<PoolRuns.Act> {
    if tr == [] then [] else OfStep(tr[0], anyway) + ActsOf(tr[1..], anyway)
  }

  function OfStep(e: Event, anyway: bool): seq<PoolRuns.Act> {
    if e.Evict? then [PoolRuns.DropBlock]
    else if e.Fill? then [if anyway then PoolRuns.AdmitAnyway else PoolRuns.Admit, PoolRuns.AddBlock]
    else []
  }

  /** The buffer's gauge with so many blocks in RAM. */
  function With(g: PoolRuns.Gauge, blocks: nat): PoolRuns.Gauge {
    PoolRuns.Gauge(g.mem + BLOCK * (blocks - g.b.blocks), g.disk, g.b.(blocks := blocks))
  }

  lemma CountMinus<V>(m: map<int, V>, o: int)
    requires o in m
    ensures |m - {o}| == |m| - 1
  {
    assert (m - {o}).Keys == m.Keys - {o};
    assert |m.Keys| == |m| && |(m - {o}).Keys| == |m - {o}|;
  }

  lemma CountPut<V>(m: map<int, V>, o: int, v: V)
    ensures |m[o := v]| == if o in m then |m| else |m| + 1
  {
    assert m[o := v].Keys == m.Keys + {o};
    assert |m.Keys| == |m| && |m[o := v].Keys| == |m[o := v]|;
  }

  lemma DropCount(s: State, o: int)
    ensures Drop(s, o).blocks == s.blocks - {o}
  {
  }

  lemma LoadCount(s: State, o: int, junk: seq<byte>)
    requires |junk| == BLOCK && 0 <= o
    ensures Load(s, o, junk).blocks.Keys == s.blocks.Keys + {o}
    ensures |Load(s, o, junk).blocks| == |Load(s, o, junk).blocks.Keys|
  {
  }

  /** How an internal step changes the number of blocks in RAM. */
  lemma StepCount(s: State, e: Event)
    requires Internal(e) && Legal(s, e)
    ensures |Do(s, e).blocks| == |s.blocks| + (if e.Fill? then 1 else 0) - (if e.Evict? then 1 else 0)
    ensures e.Evict? ==> |s.blocks| > 0
  {
    hide Drop, Load, FlushExtent;
    match e {
      case Evict(o) =>
        CountMinus(s.blocks, o);
        DropCount(s, o);
      case FlushPart(o, lo, hi, noted) => assert FlushExtent(s, o, lo, hi, noted).blocks == s.blocks by { FlushCount(s, o, lo, hi, noted); }
      case Clean(o) => CountPut(s.blocks, o, s.blocks[o].(dirty := {}));
      case Fill(o, junk) =>
        LoadCount(s, o, junk);
        assert |s.blocks.Keys| == |s.blocks|;
    }
  }

  lemma FlushCount(s: State, o: int, lo: int, hi: int, noted: bool)
    requires o in s.blocks && 0 <= lo <= hi <= |s.blocks[o].data| && 0 <= o
    ensures FlushExtent(s, o, lo, hi, noted).blocks == s.blocks
  {
  }

  /** Evictions, with the flushes they need. */
  lemma {:induction false} EvictionsAct(budget: int, g: PoolRuns.Gauge, s: State, tr: seq<Event>, t: State, anyway: bool)
    requires Does(s, tr, t) && NoFill(tr) && g.b.phase == PoolRuns.Inside && g.b.blocks == |s.blocks|
    ensures PoolRuns.Acting(budget, g, ActsOf(tr, anyway), With(g, |t.blocks|))
    decreases |tr|
  {
    hide Does, Do, Legal, Internal, NoFill, PoolRuns.Acting, ActsOf;
    if tr == [] {
      NoActs(budget, g, s, t, anyway);
    } else {
      var next := FirstStep(s, tr, t);
      EvictionsAct(budget, With(g, |next.blocks|), next, tr[1..], t, anyway);
      ActsFirst(tr, anyway);
      if tr[0].Evict? {
        DropActs(budget, g, ActsOf(tr[1..], anyway), With(g, |t.blocks|));
      }
    }
  }

  lemma NoActs(budget: int, g: PoolRuns.Gauge, s: State, t: State, anyway: bool)
    requires Does(s, [], t) && g.b.blocks == |s.blocks|
    ensures PoolRuns.Acting(budget, g, ActsOf([], anyway), With(g, |t.blocks|))
  {
  }

  lemma FirstStep(s: State, tr: seq<Event>, t: State) returns (next: State)
    requires tr != [] && Does(s, tr, t) && NoFill(tr)
    ensures Does(next, tr[1..], t) && NoFill(tr[1..]) && !tr[0].Fill?
    ensures |next.blocks| == |s.blocks| - (if tr[0].Evict? then 1 else 0)
    ensures tr[0].Evict? ==> |s.blocks| > 0
  {
    next := Do(s, tr[0]);
    StepCount(s, tr[0]);
    hide Do, Legal;
  }

  lemma ActsFirst(tr: seq<Event>, anyway: bool)
    requires tr != [] && !tr[0].Fill?
    ensures ActsOf(tr, anyway) == if tr[0].Evict? then [PoolRuns.DropBlock] + ActsOf(tr[1..], anyway) else ActsOf(tr[1..], anyway)
  {
  }

  lemma DropActs(budget: int, g: PoolRuns.Gauge, rest: seq<PoolRuns.Act>, t: PoolRuns.Gauge)
    requires g.b.phase == PoolRuns.Inside && g.b.blocks > 0
    requires PoolRuns.Acting(budget, With(g, g.b.blocks - 1), rest, t)
    ensures PoolRuns.Acting(budget, g, [PoolRuns.DropBlock] + rest, t)
  {
    var acts := [PoolRuns.DropBlock] + rest;
    assert acts[0] == PoolRuns.DropBlock && acts[1..] == rest;
  }

  /** A load behind the admission check. */
  lemma AdmitActs(budget: int, g: PoolRuns.Gauge, anyway: bool)
    requires g.b.phase == PoolRuns.Inside && (g.b.blocks + 1) * BLOCK <= g.b.ceiling
    requires if anyway then g.b.blocks == 0 else budget <= 0 || g.mem + BLOCK <= budget
    ensures PoolRuns.Acting(budget, g, ActsOf([Fill(0, [])], anyway), With(g, g.b.blocks + 1))
  {
    var acts := ActsOf([Fill(0, [])], anyway);
    assert [Fill(0, [])][0] == Fill(0, []) && [Fill(0, [])][1..] == [] && ActsOf([], anyway) == [];
    assert acts == [if anyway then PoolRuns.AdmitAnyway else PoolRuns.Admit, PoolRuns.AddBlock];
    assert acts[1..] == [PoolRuns.AddBlock] && acts[1..][1..] == [];
  }

  lemma AddAssociates<T>(a: seq<T>, b: seq<T>, c: seq<T>)
    ensures a + (b + c) == a + b + c
  {
  }

  lemma {:induction false} ActsThen(a: seq<Event>, b: seq<Event>, anyway: bool)
    ensures ActsOf(a + b, anyway) == ActsOf(a, anyway) + ActsOf(b, anyway)
  {
    hide OfStep;
    if a == [] {
      assert a + b == b;
    } else {
      ActsThen(a[1..], b, anyway);
      assert (a + b)[0] == a[0] && (a + b)[1..] == a[1..] + b;
      AddAssociates(OfStep(a[0], anyway), ActsOf(a[1..], anyway), ActsOf(b, anyway));
    }
  }

  /** Does a load leave the pool over its budget? */
  predicate Over(budget: int, mem: int) {
    budget > 0 && mem > budget
  }

  /**
   acquireBlockLocked: its evictions, and the load behind the admission check. What is
   required of the end is what Acquire promises when no disk fails.
   */
  lemma AcquireActs(budget: int, g: PoolRuns.Gauge, s: State, tr: seq<Event>, t: State)
    requires Does(s, tr, t) && FillsLast(tr) && g.b.phase == PoolRuns.Inside && g.b.blocks == |s.blocks|
    requires
      Loads(tr) ==>
        var z := With(g, |t.blocks|);
        BLOCK * |t.blocks| <= g.b.ceiling && (Over(budget, z.mem) ==> |t.blocks| == 1)
    ensures PoolRuns.Acting(budget, g, ActsOf(tr, Over(budget, With(g, |t.blocks|).mem)), With(g, |t.blocks|))
  {
    hide Does, Do, Legal, Internal, PoolRuns.Acting, ActsOf;
    var z := With(g, |t.blocks|);
    var anyway := Over(budget, z.mem);
    if tr == [] || !tr[|tr| - 1].Fill? {
      EvictionsAct(budget, g, s, tr, t, anyway);
    } else {
      var room, fill := tr[..|tr| - 1], tr[|tr| - 1];
      assert tr == room + [fill] && NoFill(room);
      var mid := Parting(s, room, fill, t);
      EvictionsAct(budget, g, s, room, mid, anyway);
      StepCount(mid, fill);
      AdmitActs(budget, With(g, |mid.blocks|), anyway);
      ActsThen(room, [fill], anyway);
      FillActs(fill, anyway);
      PoolRuns.ActingThen(budget, g, ActsOf(room, anyway), With(g, |mid.blocks|), ActsOf([fill], anyway), z);
    }
  }

  lemma FillActs(fill: Event, anyway: bool)
    requires fill.Fill?
    ensures ActsOf([fill], anyway) == ActsOf([Fill(0, [])], anyway)
  {
    assert [fill][1..] == [] && [Fill(0, [])][1..] == [];
  }

  /** The state before the last step. */
  lemma {:induction false} Parting(s: State, es: seq<Event>, e: Event, t: State) returns (mid: State)
    requires Does(s, es + [e], t)
    ensures Does(s, es, mid) && Internal(e) && Legal(mid, e) && t == Do(mid, e)
    decreases |es|
  {
    var all := es + [e];
    if es == [] {
      assert all == [e] && all[1..] == [];
      mid := s;
    } else {
      assert all[0] == es[0] && all[1..] == es[1..] + [e];
      hide Do, Legal;
      mid := Parting(Do(s, es[0]), es[1..], e, t);
    }
  }

  // ---- whole sections ----------------------------------------------------------------

  /** What the trackers gained or lost. */
  function Tracking(delta: int): seq<PoolRuns.Act> {
    if delta > 0 then [PoolRuns.Insert(delta)] else if delta < 0 then [PoolRuns.Remove(0 - delta)] else []
  }

  function Drops(d: nat): seq<PoolRuns.Act> {
    seq(d, _ => PoolRuns.DropBlock)
  }

  lemma {:induction false} DropsAct(budget: int, g: PoolRuns.Gauge, d: nat)
    requires g.b.phase == PoolRuns.Inside && d <= g.b.blocks
    ensures PoolRuns.Acting(budget, g, Drops(d), With(g, g.b.blocks - d))
    decreases d
  {
    if d > 0 {
      DropsAct(budget, With(g, g.b.blocks - 1), d - 1);
      assert Drops(d) == [PoolRuns.DropBlock] + Drops(d - 1);
      DropActs(budget, g, Drops(d - 1), With(g, g.b.blocks - d));
    }
  }

  function Present(g: PoolRuns.Gauge, delta: int): PoolRuns.Gauge
    requires g.b.present + delta >= 0
  {
    PoolRuns.Gauge(g.mem, g.disk + delta, g.b.(present := g.b.present + delta))
  }

  lemma TrackingActs(budget: int, g: PoolRuns.Gauge, delta: int)
    requires g.b.phase == PoolRuns.Inside && g.b.present + delta >= 0
    ensures PoolRuns.Acting(budget, g, Tracking(delta), Present(g, delta))
  {
    if delta != 0 {
      assert Tracking(delta)[1..] == [];
    }
  }

  function Under(g: PoolRuns.Gauge): PoolRuns.Gauge {
    g.(b := g.b.(phase := PoolRuns.Inside))
  }

  /** A section takes the lock, passes the closed check, does its work and lets go. */
  lemma SectionActs(budget: int, g: PoolRuns.Gauge, acts: seq<PoolRuns.Act>, blocks: nat, delta: int)
    requires g.b.phase == PoolRuns.Idle && !g.b.flagged && g.b.present + delta >= 0
    requires PoolRuns.Acting(budget, Under(g), acts, With(Under(g), blocks))
    ensures PoolRuns.Acting(budget, g, [PoolRuns.Enter] + (acts + Tracking(delta)) + [PoolRuns.Leave],
                            Present(With(g, blocks), delta))
  {
    var inside := With(Under(g), blocks);
    var last := Present(inside, delta);
    TrackingActs(budget, inside, delta);
    PoolRuns.ActingThen(budget, Under(g), acts, inside, Tracking(delta), last);
    OneAct(budget, g, PoolRuns.Enter, Under(g));
    OneAct(budget, last, PoolRuns.Leave, Present(With(g, blocks), delta));
    PoolRuns.ActingThen(budget, g, [PoolRuns.Enter], Under(g), acts + Tracking(delta), last);
    PoolRuns.ActingThen(budget, g, [PoolRuns.Enter] + (acts + Tracking(delta)), last, [PoolRuns.Leave],
                        Present(With(g, blocks), delta));
  }

  lemma OneAct(budget: int, g: PoolRuns.Gauge, a: PoolRuns.Act, t: PoolRuns.Gauge)
    requires PoolRuns.CanAct(PoolRuns.Pooled(budget, g), g.b, a)
    requires t == PoolRuns.After(budget, g, a)
    ensures PoolRuns.Acting(budget, g, [a], t)
  {
    assert [a][0] == a && [a][1..] == [];
  }

  /** The cached write section. */
  function OfWrite(tr: seq<Event>, anyway: bool, delta: int): seq<PoolRuns.Act> {
    [PoolRuns.Enter] + (ActsOf(tr, anyway) + Tracking(delta)) + [PoolRuns.Leave]
  }

  lemma WriteActs(budget: int, g: PoolRuns.Gauge, s: State, tr: seq<Event>, mid: State, delta: int)
    requires g.b.phase == PoolRuns.Idle && !g.b.flagged && g.b.present + delta >= 0 && g.b.blocks == |s.blocks|
    requires Does(s, tr, mid) && FillsLast(tr)
    requires
      Loads(tr) ==>
        var z := With(g, |mid.blocks|);
        BLOCK * |mid.blocks| <= g.b.ceiling && (Over(budget, z.mem) ==> |mid.blocks| == 1)
    ensures
      var z := With(g, |mid.blocks|);
      PoolRuns.Acting(budget, g, OfWrite(tr, Over(budget, z.mem), delta), Present(z, delta))
  {
    hide Does, FillsLast, Loads, PoolRuns.Acting, ActsOf, Tracking;
    AcquireActs(budget, Under(g), s, tr, mid);
    SectionActs(budget, g, ActsOf(tr, Over(budget, With(g, |mid.blocks|).mem)), |mid.blocks|, delta);
  }

  /** A section that at most drops blocks: a discard's, or the publishing of a write-through. */
  function OfRest(drops: nat, delta: int): seq<PoolRuns.Act> {
    [PoolRuns.Enter] + (Drops(drops) + Tracking(delta)) + [PoolRuns.Leave]
  }

  lemma RestActs(budget: int, g: PoolRuns.Gauge, drops: nat, delta: int)
    requires g.b.phase == PoolRuns.Idle && !g.b.flagged && g.b.present + delta >= 0 && drops <= g.b.blocks
    ensures PoolRuns.Acting(budget, g, OfRest(drops, delta), Present(With(g, g.b.blocks - drops), delta))
  {
    hide PoolRuns.Acting, Drops, Tracking;
    DropsAct(budget, Under(g), drops);
    SectionActs(budget, g, Drops(drops), g.b.blocks - drops, delta);
  }
}
