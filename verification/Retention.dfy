/**
 pkg/backup/repo_prune.go: which snapshots PrunePlan drops. Snapshots are listed
 newest first; the day, week and month a time belongs to are arbitrary functions.
 */
module Retention {
  import opened Sets

  /** at is nanoseconds since Go's zero time. */
  datatype Snap = Snap(id: string, at: nat, trigger: string, partial: bool)

  /** key gives the bucket of a time, and n how many buckets to keep one snapshot of. */
  datatype Rule = Rule(n: int, key: nat -> string)

  datatype Policy = Policy(prefix: string, last: int, rules: seq<Rule>, maxAgeDays: int)

  const DAY := 24 * 60 * 60 * 1_000_000_000

  /** A prefix ending in a colon names a family of triggers, any other a single one. */
  predicate HasPrefix(s: string, prefix: string) {
    if prefix != "" && prefix[|prefix| - 1] == ':' then prefix <= s else s == prefix
  }

  function JobOfTrigger(trigger: string): string {
    if "schedule:" <= trigger then trigger[9..]
    else if "manual:" <= trigger then trigger[7..]
    else ""
  }

  predicate Matches(p: Policy, s: Snap) {
    p.prefix == "" || HasPrefix(s.trigger, p.prefix)
  }

  predicate Candidate(p: Policy, s: Snap) {
    !s.partial && Matches(p, s)
  }

  predicate Supersedes(c: Snap, s: Snap) {
    !c.partial && JobOfTrigger(s.trigger) != "" && JobOfTrigger(c.trigger) == JobOfTrigger(s.trigger) && c.at > s.at
  }

  predicate Superseded(snaps: seq<Snap>, s: Snap) {
    exists i :: 0 <= i < |snaps| && Supersedes(snaps[i], s)
  }

  function Candidates(p: Policy, snaps: seq<Snap>): (r: seq<Snap>)
    ensures |r| <= |snaps|
    ensures forall i :: 0 <= i < |r| ==> r[i] in snaps && Candidate(p, r[i])
  {
    if snaps == [] then []
    else
      var last := snaps[|snaps| - 1];
      Candidates(p, snaps[..|snaps| - 1]) + if Candidate(p, last) then [last] else []
  }

  function Buckets(cand: seq<Snap>, rule: Rule): set<string> {
    set i | 0 <= i < |cand| :: rule.key(cand[i].at)
  }

  /** s, with these candidates newer, is the newest of its bucket, and fewer than n buckets are newer. */
  predicate InBucket(newer: seq<Snap>, s: Snap, rule: Rule) {
    rule.key(s.at) !in Buckets(newer, rule) && |Buckets(newer, rule)| < rule.n
  }

  /** A 64-bit signed product: what does not fit wraps around. */
  function Wrap64(x: int): (r: int)
    ensures -0x8000_0000_0000_0000 <= r < 0x8000_0000_0000_0000
    ensures -0x8000_0000_0000_0000 <= x < 0x8000_0000_0000_0000 ==> r == x
  {
    (x + 0x8000_0000_0000_0000) % 0x1_0000_0000_0000_0000 - 0x8000_0000_0000_0000
  }

  /** -time.Duration(days) * 24 * time.Hour: the step back from now to the cutoff. */
  function StepBack(days: int): int {
    Wrap64(0 - days * DAY)
  }

  /** The longest limit in days whose nanoseconds fit a time.Duration. */
  const MAX_DAYS := 106_751

  predicate TooOld(p: Policy, now: int, s: Snap) {
    p.maxAgeDays > 0 && s.at < now + StepBack(p.maxAgeDays)
  }

  /** Whether the policy keeps candidate s, given the candidates newer than it. */
  predicate KeepsCandidate(p: Policy, now: int, newer: seq<Snap>, s: Snap) {
    || newer == []
    || ((|newer| < p.last || exists r :: 0 <= r < |p.rules| && InBucket(newer, s, p.rules[r])) && !TooOld(p, now, s))
  }

  /** Whether the snapshot at i stays. */
  predicate KeptAt(p: Policy, now: int, snaps: seq<Snap>, i: nat)
    requires i < |snaps|
  {
    var s := snaps[i];
    if s.partial then !Superseded(snaps, s)
    else Matches(p, s) ==> KeepsCandidate(p, now, Candidates(p, snaps[..i]), s)
  }

  function Kept(p: Policy, now: int, snaps: seq<Snap>): set<string> {
    set i | 0 <= i < |snaps| && KeptAt(p, now, snaps, i) :: snaps[i].id
  }

  function Ids(snaps: seq<Snap>): set<string> {
    set s | s in snaps :: s.id
  }

  ghost predicate DistinctIds(snaps: seq<Snap>) {
    forall i, j :: 0 <= i < j < |snaps| ==> snaps[i].id != snaps[j].id
  }

  /** Newest first, as loadSnapshots sorts. */
  ghost predicate NewestFirst(snaps: seq<Snap>) {
    forall i, j :: 0 <= i < j < |snaps| ==> snaps[i].at >= snaps[j].at
  }

  /** What remains listed once only the ids in keep are left. */
  function Remaining(snaps: seq<Snap>, keep: set<string>): (r: seq<Snap>) {
    if snaps == [] then []
    else
      var last := snaps[|snaps| - 1];
      Remaining(snaps[..|snaps| - 1], keep) + if last.id in keep then [last] else []
  }

  // Laws of the policy.

  lemma KeptIff(p: Policy, now: int, snaps: seq<Snap>, i: nat)
    requires DistinctIds(snaps) && i < |snaps|
    ensures snaps[i].id in Kept(p, now, snaps) <==> KeptAt(p, now, snaps, i)
  {
  }

  lemma BucketsGrow(cand: seq<Snap>, more: seq<Snap>, rule: Rule)
    requires forall s :: s in cand ==> s in more
    ensures Buckets(cand, rule) <= Buckets(more, rule) && |Buckets(cand, rule)| <= |Buckets(more, rule)|
  {
    forall i | 0 <= i < |cand|
      ensures rule.key(cand[i].at) in Buckets(more, rule)
    {
      assert cand[i] in more;
      var j :| 0 <= j < |more| && more[j] == cand[i];
    }
    SubsetSize(Buckets(cand, rule), Buckets(more, rule));
  }

  /** With fewer newer candidates a snapshot is kept all the more. */
  lemma FewerNewer(p: Policy, now: int, newer: seq<Snap>, fewer: seq<Snap>, s: Snap)
    requires |fewer| <= |newer| && forall x :: x in fewer ==> x in newer
    requires KeepsCandidate(p, now, newer, s)
    ensures KeepsCandidate(p, now, fewer, s)
  {
    if newer != [] && |newer| >= p.last {
      var r :| 0 <= r < |p.rules| && InBucket(newer, s, p.rules[r]);
      BucketsGrow(fewer, newer, p.rules[r]);
      assert InBucket(fewer, s, p.rules[r]);
    }
  }

  lemma {:induction false} RemainingThins(p: Policy, snaps: seq<Snap>, keep: set<string>)
    ensures |Candidates(p, Remaining(snaps, keep))| <= |Candidates(p, snaps)|
    ensures forall x :: x in Candidates(p, Remaining(snaps, keep)) ==> x in Candidates(p, snaps)
  {
    if snaps != [] {
      var init, last := snaps[..|snaps| - 1], snaps[|snaps| - 1];
      RemainingThins(p, init, keep);
      if last.id in keep {
        assert Remaining(snaps, keep)[..|Remaining(init, keep)|] == Remaining(init, keep);
      } else {
        assert Remaining(snaps, keep) == Remaining(init, keep);
      }
    }
  }

  /** Where a remaining snapshot was listed before. */
  lemma {:induction false} RemainingFrom(snaps: seq<Snap>, keep: set<string>, j: nat) returns (i: nat)
    requires j < |Remaining(snaps, keep)|
    ensures i < |snaps| && snaps[i] == Remaining(snaps, keep)[j] && snaps[i].id in keep
    ensures Remaining(snaps, keep)[..j] == Remaining(snaps[..i], keep)
  {
    var init := snaps[..|snaps| - 1];
    var before := Remaining(init, keep);
    if j < |before| {
      i := RemainingFrom(init, keep, j);
      assert init[..i] == snaps[..i];
      assert Remaining(snaps, keep)[..j] == before[..j];
    } else {
      i := |snaps| - 1;
      assert Remaining(snaps, keep)[..j] == before;
    }
  }

  /** Fixed point: planning again over what a prune left drops nothing more. */
  lemma PlanIsFixedPoint(p: Policy, now: int, snaps: seq<Snap>)
    requires DistinctIds(snaps)
    ensures var left := Remaining(snaps, Kept(p, now, snaps));
      forall j :: 0 <= j < |left| ==> KeptAt(p, now, left, j)
  {
    var keep := Kept(p, now, snaps);
    var left := Remaining(snaps, keep);
    forall j | 0 <= j < |left|
      ensures KeptAt(p, now, left, j)
    {
      var i := RemainingFrom(snaps, keep, j);
      KeptIff(p, now, snaps, i);
      var s := snaps[i];
      if s.partial {
        forall k | 0 <= k < |left|
          ensures !Supersedes(left[k], s)
        {
          var m := RemainingFrom(snaps, keep, k);
          assert !Supersedes(snaps[m], s);
        }
      } else if Matches(p, s) {
        RemainingThins(p, snaps[..i], keep);
        FewerNewer(p, now, Candidates(p, snaps[..i]), Candidates(p, left[..j]), s);
      }
    }
  }

  /** q asks for at least as many of everything as p, over the same snapshots. */
  ghost predicate AtLeast(q: Policy, p: Policy) {
    && q.prefix == p.prefix && q.maxAgeDays == p.maxAgeDays
    && q.last >= p.last && |q.rules| == |p.rules|
    && forall r :: 0 <= r < |p.rules| ==> q.rules[r].key == p.rules[r].key && q.rules[r].n >= p.rules[r].n
  }

  lemma {:induction false} SameCandidates(p: Policy, q: Policy, snaps: seq<Snap>)
    requires p.prefix == q.prefix
    ensures Candidates(p, snaps) == Candidates(q, snaps)
  {
    if snaps != [] {
      SameCandidates(p, q, snaps[..|snaps| - 1]);
    }
  }

  /** Raising any count never drops a snapshot that was kept. */
  lemma PlanIsMonotone(p: Policy, q: Policy, now: int, snaps: seq<Snap>)
    requires AtLeast(q, p)
    ensures Kept(p, now, snaps) <= Kept(q, now, snaps)
  {
    forall i | 0 <= i < |snaps| && KeptAt(p, now, snaps, i)
      ensures KeptAt(q, now, snaps, i)
    {
      var s, newer := snaps[i], Candidates(p, snaps[..i]);
      SameCandidates(p, q, snaps[..i]);
      if Candidate(p, s) && newer != [] && |newer| >= p.last {
        var r :| 0 <= r < |p.rules| && InBucket(newer, s, p.rules[r]);
        assert Buckets(newer, p.rules[r]) == Buckets(newer, q.rules[r]);
        assert InBucket(newer, s, q.rules[r]);
      }
    }
  }

  /** Some listing makes the policy keep a second snapshot, if it is not too old. */
  ghost predicate KeepsSecond(p: Policy) {
    p.last >= 2 || exists r, t: nat, u: nat ::
      0 <= r < |p.rules| && p.rules[r].n >= 2 && t > u && p.rules[r].key(t) != p.rules[r].key(u)
  }

  /** Every snapshot the policy keeps is kept with another age limit too, at any clock. */
  ghost predicate NeverDropsMore(p: Policy, days: int) {
    forall now: int, snaps :: DistinctIds(snaps) && NewestFirst(snaps) ==>
      Kept(p, now, snaps) <= Kept(p.(maxAgeDays := days), now, snaps)
  }

  /** The new cutoff is never later than the old one. */
  predicate ReachesAsFar(p: Policy, days: int) {
    days <= 0 || (p.maxAgeDays > 0 && StepBack(days) <= StepBack(p.maxAgeDays))
  }

  /**
   Changing the age limit drops nothing more exactly when the cutoff does not move
   forward, or when the policy never keeps more than the newest snapshot anyway.
   */
  lemma AgeLimitIff(p: Policy, days: int)
    ensures NeverDropsMore(p, days) <==> ReachesAsFar(p, days) || !KeepsSecond(p)
  {
    if ReachesAsFar(p, days) || !KeepsSecond(p) {
      forall now: int, snaps | DistinctIds(snaps) && NewestFirst(snaps)
        ensures Kept(p, now, snaps) <= Kept(p.(maxAgeDays := days), now, snaps)
      {
        FartherIsSafer(p, days, now, snaps);
      }
    } else {
      var snaps, now := NearerDrops(p, days);
    }
  }

  lemma FartherIsSafer(p: Policy, days: int, now: int, snaps: seq<Snap>)
    requires NewestFirst(snaps) && (ReachesAsFar(p, days) || !KeepsSecond(p))
    ensures Kept(p, now, snaps) <= Kept(p.(maxAgeDays := days), now, snaps)
  {
    hide StepBack;
    var q := p.(maxAgeDays := days);
    forall i | 0 <= i < |snaps| && KeptAt(p, now, snaps, i)
      ensures KeptAt(q, now, snaps, i)
    {
      var newer := Candidates(p, snaps[..i]);
      SameCandidates(p, q, snaps[..i]);
      if Candidate(p, snaps[i]) && newer != [] {
        if !ReachesAsFar(p, days) {
          OnlyNewest(p, newer, snaps[i], now);
        }
        assert !TooOld(q, now, snaps[i]);
      }
    }
  }

  /** A policy that keeps a snapshot although a newer one stands can keep a second. */
  lemma OnlyNewest(p: Policy, newer: seq<Snap>, s: Snap, now: int)
    requires newer != [] && KeepsCandidate(p, now, newer, s) && forall x :: x in newer ==> x.at >= s.at
    ensures KeepsSecond(p)
  {
    if |newer| >= p.last {
      var r :| 0 <= r < |p.rules| && InBucket(newer, s, p.rules[r]);
      var key := p.rules[r].key;
      assert key(newer[0].at) in Buckets(newer, p.rules[r]);
      assert key(newer[0].at) != key(s.at);
      assert newer[0] in newer;
    }
  }

  /** When the cutoff moves forward, a policy that can keep two snapshots drops one it kept. */
  lemma NearerDrops(p: Policy, days: int) returns (snaps: seq<Snap>, now: int)
    requires !ReachesAsFar(p, days) && KeepsSecond(p)
    ensures DistinctIds(snaps) && NewestFirst(snaps)
    ensures "old" in Kept(p, now, snaps) && "old" !in Kept(p.(maxAgeDays := days), now, snaps)
  {
    var q := p.(maxAgeDays := days);
    var t: nat, u: nat := 1, 0;
    if p.last < 2 {
      var r: int;
      r, t, u :| 0 <= r < |p.rules| && p.rules[r].n >= 2 && t > u && p.rules[r].key(t) != p.rules[r].key(u);
      SecondBucket(p.prefix, p.rules[r], t, u);
    }
    var young, old_ := Snap("new", t, p.prefix, false), Snap("old", u, p.prefix, false);
    snaps, now := [young, old_], u + 1 - StepBack(days);
    assert snaps[..1] == [young];
    hide HasPrefix, StepBack, InBucket;
    OwnPrefix(p, young);
    OwnPrefix(q, young);
    assert KeptAt(p, now, snaps, 1) && !KeptAt(q, now, snaps, 1);
    hide KeptAt;
    KeptIff(p, now, snaps, 1);
    KeptIff(q, now, snaps, 1);
  }

  lemma SecondBucket(prefix: string, rule: Rule, t: nat, u: nat)
    requires rule.n >= 2 && rule.key(t) != rule.key(u)
    ensures InBucket([Snap("new", t, prefix, false)], Snap("old", u, prefix, false), rule)
  {
    var newer := [Snap("new", t, prefix, false)];
    assert forall i :: 0 <= i < |newer| ==> newer[i].at == t;
    assert Buckets(newer, rule) <= {rule.key(t)};
    hide Buckets;
    AtMostOne(Buckets(newer, rule), rule.key(t));
  }

  lemma AtMostOne<T>(s: set<T>, x: T)
    requires s <= {x}
    ensures |s| <= 1
  {
    SubsetSize(s, {x});
  }

  lemma StepBackFits(days: int)
    requires 0 < days <= MAX_DAYS
    ensures StepBack(days) == 0 - days * DAY
  {
    hide Wrap64;
  }

  lemma StepBackWraps()
    ensures StepBack(MAX_DAYS + 1) > 0
  {
  }

  /** Up to 106751 days a longer limit reaches farther back; it never drops more. */
  lemma LongerIsSafer(p: Policy, days: int)
    requires 0 < p.maxAgeDays <= days <= MAX_DAYS
    ensures NeverDropsMore(p, days)
  {
    hide NeverDropsMore, KeepsSecond, StepBack;
    StepBackFits(p.maxAgeDays);
    StepBackFits(days);
    AgeLimitIff(p, days);
  }

  /** At 106752 days the product wraps: the cutoff lies in the future, and a longer limit drops more. */
  lemma WrappedDropsMore(p: Policy)
    requires 0 < p.maxAgeDays <= MAX_DAYS && KeepsSecond(p)
    ensures StepBack(MAX_DAYS + 1) > 0 && !NeverDropsMore(p, MAX_DAYS + 1)
  {
    hide NeverDropsMore, KeepsSecond, StepBack;
    StepBackFits(p.maxAgeDays);
    StepBackWraps();
    AgeLimitIff(p, MAX_DAYS + 1);
  }

  /** Going from no limit (0) to any limit at all drops more, unless only the newest is kept anyway. */
  lemma FirstLimitDrops(p: Policy, days: int)
    requires p.maxAgeDays <= 0 && days > 0
    ensures NeverDropsMore(p, days) <==> !KeepsSecond(p)
  {
    hide NeverDropsMore, KeepsSecond, StepBack;
    AgeLimitIff(p, days);
  }

  lemma OwnPrefix(p: Policy, s: Snap)
    requires s.trigger == p.prefix && !s.partial
    ensures Candidates(p, [s]) == [s] && forall x: Snap :: x.trigger == p.prefix ==> Matches(p, x)
  {
    assert [s][..0] == [];
  }

  lemma {:induction false} NoneNewer(p: Policy, snaps: seq<Snap>)
    requires forall j :: 0 <= j < |snaps| ==> !Candidate(p, snaps[j])
    ensures Candidates(p, snaps) == []
  {
    if snaps != [] {
      NoneNewer(p, snaps[..|snaps| - 1]);
    }
  }

  /** The newest complete snapshot the policy covers always stays, whatever the policy. */
  lemma NewestSurvives(p: Policy, now: int, snaps: seq<Snap>, i: nat)
    requires i < |snaps| && Candidate(p, snaps[i]) && forall j :: 0 <= j < i ==> !Candidate(p, snaps[j])
    ensures snaps[i].id in Kept(p, now, snaps)
  {
    NoneNewer(p, snaps[..i]);
    assert KeptAt(p, now, snaps, i);
  }

  // The code.

  /** supersededPartials. */
  method SupersededPartials(snaps: seq<Snap>) returns (out: set<string>)
    requires DistinctIds(snaps)
    ensures forall i :: 0 <= i < |snaps| ==>
      (snaps[i].id in out <==> snaps[i].partial && Superseded(snaps, snaps[i]))
  {
    var newest := NewestComplete(snaps);
    out := {};
    for i := 0 to |snaps|
      invariant forall k :: 0 <= k < |snaps| ==>
        (snaps[k].id in out <==> k < i && snaps[k].partial && Superseded(snaps, snaps[k]))
    {
      var s := snaps[i];
      var job := JobOfTrigger(s.trigger);
      if s.partial && job in newest && newest[job] > s.at {
        out := out + {s.id};
      }
    }
  }

  /** The newest time of a complete snapshot of each job. */
  method NewestComplete(snaps: seq<Snap>) returns (newest: map<string, nat>)
    ensures forall s: Snap :: (JobOfTrigger(s.trigger) in newest && newest[JobOfTrigger(s.trigger)] > s.at) <==> Superseded(snaps, s)
  {
    newest := map[];
    for i := 0 to |snaps|
      invariant "" !in newest
      invariant forall job :: job in newest ==>
        exists k :: 0 <= k < i && !snaps[k].partial && JobOfTrigger(snaps[k].trigger) == job && snaps[k].at == newest[job]
      invariant forall k :: 0 <= k < i && !snaps[k].partial && JobOfTrigger(snaps[k].trigger) != "" && snaps[k].at > 0 ==>
        JobOfTrigger(snaps[k].trigger) in newest && newest[JobOfTrigger(snaps[k].trigger)] >= snaps[k].at
    {
      var s := snaps[i];
      if !s.partial {
        var job := JobOfTrigger(s.trigger);
        if job != "" && s.at > (if job in newest then newest[job] else 0) {
          newest := newest[job := s.at];
        }
      }
    }
    forall s: Snap | Superseded(snaps, s)
      ensures JobOfTrigger(s.trigger) in newest && newest[JobOfTrigger(s.trigger)] > s.at
    {
      var k :| 0 <= k < |snaps| && Supersedes(snaps[k], s);
    }
  }

  /** keep' adds to keep the first i snapshots that the rule keeps. */
  ghost predicate Scanned(cand: seq<Snap>, rule: Rule, keep: set<string>, i: nat, keep': set<string>) {
    && keep' <= keep + Ids(cand)
    && forall k :: 0 <= k < |cand| ==>
        (cand[k].id in keep' <==> cand[k].id in keep || (k < i && InBucket(cand[..k], cand[k], rule)))
  }

  lemma ScanNext(cand: seq<Snap>, rule: Rule, keep: set<string>, i: nat, keep': set<string>)
    requires DistinctIds(cand) && i < |cand| && Scanned(cand, rule, keep, i, keep')
    ensures Scanned(cand, rule, keep, i + 1, if InBucket(cand[..i], cand[i], rule) then keep' + {cand[i].id} else keep')
  {
    hide InBucket;
  }

  /** Once n buckets are newer, no older snapshot is kept by the rule. */
  lemma ScanStops(cand: seq<Snap>, rule: Rule, keep: set<string>, i: nat, keep': set<string>)
    requires i <= |cand| && |Buckets(cand[..i], rule)| >= rule.n && Scanned(cand, rule, keep, i, keep')
    ensures Scanned(cand, rule, keep, |cand|, keep')
  {
    forall m | i <= m < |cand|
      ensures !InBucket(cand[..m], cand[m], rule)
    {
      assert forall s :: s in cand[..i] ==> s in cand[..m];
      BucketsGrow(cand[..i], cand[..m], rule);
    }
    hide InBucket;
  }

  /** One bucket rule: a scan that stops at the first bucket beyond the n-th. */
  method KeepBuckets(cand: seq<Snap>, rule: Rule, keep: set<string>) returns (keep': set<string>)
    requires DistinctIds(cand)
    ensures Scanned(cand, rule, keep, |cand|, keep')
  {
    keep' := keep;
    assert Buckets(cand[..0], rule) == {};
    hide Buckets, InBucket, Scanned;
    NothingScanned(cand, rule, keep);
    if rule.n <= 0 {
      ScanStops(cand, rule, keep, 0, keep');
      return;
    }
    var seen: set<string> := {};
    for i := 0 to |cand|
      invariant seen == Buckets(cand[..i], rule) && |seen| <= rule.n
      invariant Scanned(cand, rule, keep, i, keep')
    {
      var k := rule.key(cand[i].at);
      BucketsNext(cand, i, rule);
      BucketIs(cand[..i], cand[i], rule);
      ScanNext(cand, rule, keep, i, keep');
      if k in seen {
        continue;
      }
      if |seen| >= rule.n {
        ScanStops(cand, rule, keep, i, keep');
        return;
      }
      seen := seen + {k};
      keep' := keep' + {cand[i].id};
    }
  }

  lemma NothingScanned(cand: seq<Snap>, rule: Rule, keep: set<string>)
    ensures Scanned(cand, rule, keep, 0, keep)
  {
  }

  lemma BucketIs(newer: seq<Snap>, s: Snap, rule: Rule)
    ensures InBucket(newer, s, rule) <==> rule.key(s.at) !in Buckets(newer, rule) && |Buckets(newer, rule)| < rule.n
  {
  }

  lemma BucketsNext(cand: seq<Snap>, i: nat, rule: Rule)
    requires i < |cand|
    ensures Buckets(cand[..i + 1], rule) == Buckets(cand[..i], rule) + {rule.key(cand[i].at)}
  {
    var all := cand[..i + 1];
    assert all[i] == cand[i];
    assert forall k :: 0 <= k < i ==> all[k] == cand[..i][k];
  }

  /** The newest one, and as many as the policy's count asks for. */
  method KeepNewest(p: Policy, cand: seq<Snap>) returns (keep: set<string>)
    requires DistinctIds(cand)
    ensures forall k :: 0 <= k < |cand| ==> (cand[k].id in keep <==> k == 0 || k < p.last)
    ensures keep <= Ids(cand)
  {
    keep := {};
    for i := 0 to |cand|
      invariant keep <= Ids(cand)
      invariant forall k :: 0 <= k < |cand| ==> (cand[k].id in keep <==> k < i && (k == 0 || k < p.last))
    {
      if i == 0 || i < p.last {
        keep := keep + {cand[i].id};
      }
    }
  }

  /** Whether one of the first n rules keeps s. */
  predicate ByRule(p: Policy, n: nat, newer: seq<Snap>, s: Snap)
    requires n <= |p.rules|
  {
    exists r :: 0 <= r < n && InBucket(newer, s, p.rules[r])
  }

  /** The age limit: it never drops the newest. */
  method DropOld(p: Policy, now: int, cand: seq<Snap>, keep: set<string>) returns (keep': set<string>)
    requires DistinctIds(cand)
    ensures keep' <= keep
    ensures forall k :: 0 <= k < |cand| ==>
      (cand[k].id in keep' <==> cand[k].id in keep && !(k > 0 && TooOld(p, now, cand[k])))
  {
    keep' := keep;
    if p.maxAgeDays > 0 {
      var cutoff := now + StepBack(p.maxAgeDays);
      for i := 0 to |cand|
        invariant keep' <= keep
        invariant forall k :: 0 <= k < |cand| ==>
          (cand[k].id in keep' <==> cand[k].id in keep && !(0 < k < i && TooOld(p, now, cand[k])))
      {
        if i > 0 && cand[i].at < cutoff {
          keep' := keep' - {cand[i].id};
        }
      }
    }
  }

  /** The part of PrunePlan that only looks at the covered complete snapshots. */
  method KeepCandidates(p: Policy, now: int, cand: seq<Snap>) returns (keep: set<string>)
    requires DistinctIds(cand)
    ensures forall k :: 0 <= k < |cand| ==> (cand[k].id in keep <==> KeepsCandidate(p, now, cand[..k], cand[k]))
    ensures keep <= Ids(cand)
  {
    hide TooOld, InBucket, DistinctIds;
    keep := KeepNewest(p, cand);
    for r := 0 to |p.rules|
      invariant forall k :: 0 <= k < |cand| ==>
        (cand[k].id in keep <==> k == 0 || k < p.last || ByRule(p, r, cand[..k], cand[k]))
      invariant keep <= Ids(cand)
    {
      keep := KeepBuckets(cand, p.rules[r], keep);
      forall k | 0 <= k < |cand|
        ensures ByRule(p, r + 1, cand[..k], cand[k]) <==>
          ByRule(p, r, cand[..k], cand[k]) || InBucket(cand[..k], cand[k], p.rules[r])
      {
      }
    }
    keep := DropOld(p, now, cand, keep);
    forall k | 0 <= k < |cand|
      ensures cand[k].id in keep <==> KeepsCandidate(p, now, cand[..k], cand[k])
    {
      assert |cand[..k]| == k;
    }
  }

  lemma {:induction false} CandidateAt(p: Policy, snaps: seq<Snap>, i: nat)
    requires i < |snaps| && Candidate(p, snaps[i])
    ensures var k := |Candidates(p, snaps[..i])|;
      k < |Candidates(p, snaps)| && Candidates(p, snaps)[k] == snaps[i] && Candidates(p, snaps)[..k] == Candidates(p, snaps[..i])
  {
    var init := snaps[..|snaps| - 1];
    if i < |init| {
      CandidateAt(p, init, i);
      assert init[..i] == snaps[..i];
      assert Candidates(p, snaps)[..|Candidates(p, init)|] == Candidates(p, init);
    } else {
      assert init == snaps[..i];
    }
  }

  lemma {:induction false} CandidatesDistinct(p: Policy, snaps: seq<Snap>)
    requires DistinctIds(snaps)
    ensures DistinctIds(Candidates(p, snaps))
  {
    if snaps != [] {
      var init, last := snaps[..|snaps| - 1], snaps[|snaps| - 1];
      CandidatesDistinct(p, init);
      assert forall s :: s in init ==> s.id != last.id;
    }
  }

  /** What is kept among the candidates, read off the whole listing. */
  lemma CountedIff(p: Policy, now: int, snaps: seq<Snap>, counted: set<string>)
    requires DistinctIds(snaps)
    requires
      var cand := Candidates(p, snaps);
      && counted <= Ids(cand)
      && forall k :: 0 <= k < |cand| ==> (cand[k].id in counted <==> KeepsCandidate(p, now, cand[..k], cand[k]))
    ensures forall i :: 0 <= i < |snaps| ==> (snaps[i].id in counted <==>
      Candidate(p, snaps[i]) && KeepsCandidate(p, now, Candidates(p, snaps[..i]), snaps[i]))
  {
    hide KeepsCandidate, Candidate, Candidates;
    var cand := Candidates(p, snaps);
    forall i | 0 <= i < |snaps|
      ensures snaps[i].id in counted <==>
        Candidate(p, snaps[i]) && KeepsCandidate(p, now, Candidates(p, snaps[..i]), snaps[i])
    {
      if Candidate(p, snaps[i]) {
        CandidateAt(p, snaps, i);
      } else {
        forall k | 0 <= k < |cand|
          ensures cand[k].id != snaps[i].id
        {
          assert cand[k] in snaps && cand[k] != snaps[i];
        }
      }
    }
  }

  /** PrunePlan's choice: exactly the snapshots the policy does not keep, in listing order. */
  method PlanDeletes(p: Policy, now: int, snaps: seq<Snap>) returns (delete: seq<Snap>, kept: nat)
    requires DistinctIds(snaps)
    ensures delete == Remaining(snaps, Ids(snaps) - Kept(p, now, snaps))
    ensures kept + |delete| == |snaps|
    ensures forall s :: s in snaps && !s.partial && !Matches(p, s) ==> s !in delete
  {
    var keep := KeepIds(p, now, snaps);
    delete, kept := [], 0;
    ghost var drop := Ids(snaps) - Kept(p, now, snaps);
    for i := 0 to |snaps|
      invariant delete == Remaining(snaps[..i], drop) && kept + |delete| == i
      invariant forall s :: s in delete ==> s.id !in keep
    {
      assert snaps[..i + 1][..i] == snaps[..i];
      KeptIff(p, now, snaps, i);
      if snaps[i].id in keep {
        kept := kept + 1;
      } else {
        delete := delete + [snaps[i]];
      }
    }
    assert snaps[..|snaps|] == snaps;
    forall s | s in snaps && !s.partial && !Matches(p, s)
      ensures s.id in keep
    {
      var i :| 0 <= i < |snaps| && snaps[i] == s;
      assert KeptAt(p, now, snaps, i);
    }
  }

  method KeepIds(p: Policy, now: int, snaps: seq<Snap>) returns (keep: set<string>)
    requires DistinctIds(snaps)
    ensures forall i :: 0 <= i < |snaps| ==> (snaps[i].id in keep <==> KeptAt(p, now, snaps, i))
  {
    var superseded := SupersededPartials(snaps);
    keep := {};
    var cand: seq<Snap> := [];
    for i := 0 to |snaps|
      invariant cand == Candidates(p, snaps[..i])
      invariant forall k :: 0 <= k < |snaps| ==> (snaps[k].id in keep <==>
        k < i && if snaps[k].partial then !Superseded(snaps, snaps[k]) else !Matches(p, snaps[k]))
    {
      assert snaps[..i + 1][..i] == snaps[..i];
      var s := snaps[i];
      if s.partial {
        if s.id !in superseded {
          keep := keep + {s.id};
        }
      } else if Matches(p, s) {
        cand := cand + [s];
      } else {
        keep := keep + {s.id};
      }
    }
    assert snaps[..|snaps|] == snaps;
    CandidatesDistinct(p, snaps);
    var counted := KeepCandidates(p, now, cand);
    CountedIff(p, now, snaps, counted);
    hide KeepsCandidate, Superseded, Matches, Candidates;
    keep := keep + counted;
  }
}
