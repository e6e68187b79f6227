/**
 What the order of the LRU list means over a run: the block in front is the one that
 was last loaded or written into, and so on down the list. When that was is read off
 the events of the run alone.
 */
module BufferAges {
  import opened BufferSpec
  import opened BufferSteps
  import opened BufferRuns

  /** The event loads the block at o into RAM, or writes into it there. */
  predicate Uses(w: World, e: Event, o: int) {
    match e
    case Fill(p, _) => p == o
    case CachedWrite(p, _, _) => p == o
    case PublishThrough(id) => id in w.ops && w.ops[id].Through? && w.ops[id].o == o && o in w.s.blocks
    case _ => false
  }

  /** The number of the last event of the run that used block o; 0 if none did. */
  ghost function LastUse(w: World, es: seq<Event>, z: World, o: int): nat
    requires Run(w, es, z)
    decreases |es|
  {
    if es == [] then 0
    else
      var later := LastUse(Next(w, es[0]), es[1..], z, o);
      if later > 0 then later + 1 else if Uses(w, es[0], o) then 1 else 0
  }

  /** The age function's value at block o; the greater, the more recent the use. */
  function At(age: int -> int, o: int): int {
    age(o)
  }

  /** The list runs from the youngest to the oldest. */
  ghost predicate Ordered(q: seq<int>, age: int -> int) {
    forall i, j :: 0 <= i < j < |q| ==> At(age, q[i]) > At(age, q[j])
  }

  ghost predicate Past(q: seq<int>, age: int -> int) {
    forall x :: x in q ==> At(age, x) <= 0
  }

  lemma TailOrdered(q: seq<int>, age: int -> int)
    requires q != [] && Ordered(q, age)
    ensures Ordered(q[1..], age) && forall x :: x in q[1..] ==> At(age, q[0]) > At(age, x)
  {
    var rest := q[1..];
    assert forall i :: 0 <= i < |rest| ==> rest[i] == q[i + 1];
  }

  lemma ConsOrdered(x: int, q: seq<int>, age: int -> int)
    requires Ordered(q, age) && forall y :: y in q ==> At(age, x) > At(age, y)
    ensures Ordered([x] + q, age)
  {
    var all := [x] + q;
    assert forall i :: 0 < i < |all| ==> all[i] == q[i - 1] && all[i] in q;
  }

  lemma {:induction false} KeepOrdered(q: seq<int>, ks: set<int>, age: int -> int)
    requires Ordered(q, age)
    ensures Ordered(Keep(q, ks), age)
    ensures forall x :: x in Keep(q, ks) ==> x in q
  {
    if q != [] {
      TailOrdered(q, age);
      var rest := q[1..];
      KeepOrdered(rest, ks, age);
      var kept := Keep(rest, ks);
      ConsOrdered(q[0], kept, age);
      assert Keep(q, ks) == (if q[0] in ks then [q[0]] else []) + kept;
      assert [] + kept == kept;
      hide Ordered, Keep;
    }
  }

  /** One event later: what it used is youngest, everything else one event older. */
  function Aged(w: World, e: Event, age: int -> int): int -> int {
    (o: int) => if Uses(w, e, o) then 0 else At(age, o) - 1
  }

  /** What an event does not use gets older, and stays in order. */
  lemma Older(q: seq<int>, age: int -> int, next: int -> int)
    requires Ordered(q, age) && Past(q, age) && forall x :: x in q ==> At(next, x) == At(age, x) - 1
    ensures Ordered(q, next) && Past(q, next)
  {
    forall i, j | 0 <= i < j < |q|
      ensures At(next, q[i]) > At(next, q[j])
    {
      assert q[i] in q && q[j] in q;
    }
  }

  lemma KeptOlder(q: seq<int>, ks: set<int>, age: int -> int, next: int -> int)
    requires Ordered(q, age) && Past(q, age) && forall x :: x in q && x in ks ==> At(next, x) == At(age, x) - 1
    ensures Ordered(Keep(q, ks), next) && Past(Keep(q, ks), next)
  {
    KeepOrdered(q, ks, age);
    KeepMembers(q, ks);
    hide Keep;
    Older(Keep(q, ks), age, next);
  }

  /** A block that moves, or comes, to the front becomes the youngest. */
  lemma FrontYoungest(q: seq<int>, o: int, age: int -> int, next: int -> int)
    requires Ordered(q, age) && Past(q, age)
    requires At(next, o) == 0 && forall p :: p != o ==> At(next, p) == At(age, p) - 1
    ensures Ordered(ToFront(q, o), next) && Past(ToFront(q, o), next)
    ensures o !in q ==> Ordered([o] + q, next) && Past([o] + q, next)
  {
    var ks := (set x | x in q) - {o};
    KeptOlder(q, ks, age, next);
    KeepMembers(q, ks);
    hide Ordered, Keep;
    ConsOrdered(o, Keep(q, ks), next);
    if o !in q {
      Older(q, age, next);
      ConsOrdered(o, q, next);
    }
  }

  /** What an event does to the list. */
  lemma NextList(w: World, e: Event)
    requires WInv(w) && Enabled(w, e)
    ensures
      var q, q' := w.s.lru, Next(w, e).s.lru;
      match e
      case Evict(o) => q' == Keep(q, w.s.blocks.Keys - {o})
      case Fill(o, _) => q' == [o] + q && o !in q
      case CachedWrite(o, _, _) => q' == ToFront(q, o)
      case PublishThrough(id) => q' == if w.ops[id].o in w.s.blocks then ToFront(q, w.ops[id].o) else q
      case DiscardRange(_, off, end) => q' == Keep(q, Discard(w.s, off, end).blocks.Keys)
      case _ => q' == q
  {
    assert LruExact(w.s);
    hide WInv, Keep, ToFront, Patch, FullyPresent, Aligned, AlignDown, Doomed, Touched, Written, Erased;
  }

  /** Every step of a buffer keeps its list in order. */
  lemma StepKeepsOrder(w: World, e: Event, age: int -> int)
    requires WInv(w) && Enabled(w, e) && Ordered(w.s.lru, age) && Past(w.s.lru, age)
    ensures Ordered(Next(w, e).s.lru, Aged(w, e, age)) && Past(Next(w, e).s.lru, Aged(w, e, age))
  {
    var next, q := Aged(w, e, age), w.s.lru;
    NextList(w, e);
    hide WInv, Enabled, Next, Ordered, Past, Keep, ToFront, Discard;
    match e
    case Evict(o) => KeptOlder(q, w.s.blocks.Keys - {o}, age, next);
    case Fill(o, _) => FrontYoungest(q, o, age, next);
    case CachedWrite(o, _, _) => FrontYoungest(q, o, age, next);
    case PublishThrough(id) =>
      if w.ops[id].o in w.s.blocks {
        FrontYoungest(q, w.ops[id].o, age, next);
      } else {
        Older(q, age, next);
      }
    case DiscardRange(_, off, end) =>
      KeptOlder(q, Discard(w.s, off, end).blocks.Keys, age, next);
    case _ => Older(q, age, next);
  }

  /** Over a run: the last use where there is one, else the age the block had before. */
  lemma {:induction false} RunKeepsOrder(w: World, es: seq<Event>, z: World, age: int -> int, now: int -> int)
    requires WInv(w) && Run(w, es, z) && Ordered(w.s.lru, age) && Past(w.s.lru, age)
    requires forall o :: At(now, o) == if LastUse(w, es, z, o) > 0 then LastUse(w, es, z, o) else At(age, o)
    ensures Ordered(z.s.lru, now)
    decreases |es|
  {
    hide WInv, Enabled;
    if es != [] {
      var n, next := Next(w, es[0]), Aged(w, es[0], age);
      StepKeeps(w, es[0]);
      StepKeepsOrder(w, es[0], age);
      hide Next, Uses;
      RunKeepsOrder(n, es[1..], z, next, o => At(now, o) - 1);
    }
  }

  /**
   Over every run of a buffer that began with nothing cached, the list is in
   most-recently-used order: whatever stands earlier was used later.
   */
  lemma MostRecentFirst(w: World, es: seq<Event>, z: World, i: nat, j: nat)
    requires WInv(w) && Run(w, es, z) && w.s.lru == [] && i < j < |z.s.lru|
    ensures LastUse(w, es, z, z.s.lru[i]) > LastUse(w, es, z, z.s.lru[j])
  {
    ghost var now: int -> int := (o: int) => LastUse(w, es, z, o);
    RunKeepsOrder(w, es, z, o => 0, now);
    assert At(now, z.s.lru[i]) > At(now, z.s.lru[j]);
  }

  ghost predicate CleanAt(s: State, o: int) {
    o in s.blocks && s.blocks[o].dirty == {}
  }

  /** The block eviction takes: the last clean one in the list, or the tail when none is clean. */
  ghost predicate Victim(s: State, o: int) {
    exists k :: 0 <= k < |s.lru| && s.lru[k] == o &&
      if CleanAt(s, o) then forall i :: k < i < |s.lru| ==> !CleanAt(s, s.lru[i])
      else k == |s.lru| - 1 && forall i :: 0 <= i < |s.lru| ==> !CleanAt(s, s.lru[i])
  }

  /**
   So eviction takes the clean block that was used longest ago, or, when every block is
   dirty, the block used longest ago of all.
   */
  lemma VictimIsOldest(w: World, es: seq<Event>, z: World, o: int, p: int)
    requires WInv(w) && Run(w, es, z) && w.s.lru == [] && Victim(z.s, o)
    requires p in z.s.blocks && p != o && (CleanAt(z.s, o) ==> CleanAt(z.s, p))
    ensures LastUse(w, es, z, o) < LastUse(w, es, z, p)
    ensures !CleanAt(z.s, o) ==> !CleanAt(z.s, p)
  {
    RunKeeps(w, es, z);
    ListExact(z);
    var i, k := VictimStands(z.s, o, p);
    hide WInv, Run, LruExact, Victim, CleanAt;
    MostRecentFirst(w, es, z, i, k);
  }

  lemma ListExact(w: World)
    requires WInv(w)
    ensures LruExact(w.s)
  {
  }

  /** The victim stands behind every block that is eligible like it. */
  lemma VictimStands(s: State, o: int, p: int) returns (i: nat, k: nat)
    requires LruExact(s) && Victim(s, o) && p in s.blocks && p != o && (CleanAt(s, o) ==> CleanAt(s, p))
    ensures i < k < |s.lru| && s.lru[i] == p && s.lru[k] == o
    ensures !CleanAt(s, o) ==> !CleanAt(s, p)
  {
    hide CleanAt, NoDup;
    k :| 0 <= k < |s.lru| && s.lru[k] == o &&
      if CleanAt(s, o) then forall j :: k < j < |s.lru| ==> !CleanAt(s, s.lru[j])
      else k == |s.lru| - 1 && forall j :: 0 <= j < |s.lru| ==> !CleanAt(s, s.lru[j]);
    assert p in s.lru;
    i :| 0 <= i < |s.lru| && s.lru[i] == p;
  }
}
