/**
 internal/nntp/client.go: batchStatAcrossProviders, which asks one provider after
 another about a chunk of message ids and turns the answers into one verdict each.
 What a provider replies, how long the reply is, what the hint says and when the
 context ends are arbitrary.
 */
module BatchStat {
  import opened Options
  import opened Providers
  import opened StatRouting

  /** One STAT result: available, not-found, another error, or neither set. */
  datatype Answer = Hit | Miss | Bad(code: nat) | Empty

  /** batchStatOnProvider's result: possibly short, possibly with an error, which is never a not-found. */
  datatype Reply = Reply(answers: seq<Answer>, err: Option<nat>)

  /** The non-not-found errors a result may carry. */
  datatype Fault = Given(code: nat) | Incomplete | EmptyResult | Split | Unverified

  /** batchStatState. */
  datatype IdState = IdState(sawNotFound: bool, sawOther: bool, lastErr: Option<Fault>, excl: Exclusions)

  datatype Verdict = Blank | Available(host: string) | Missing | Failed(fault: Fault)

  const FRESH := IdState(false, false, None, Exclusions({}, {}))

  /** One provider's turn: the ids it was asked about (none if it was skipped) and its reply. */
  datatype Visit = Visit(p: Provider, asked: seq<nat>, reply: Reply)

  /** An id during the run: still unresolved, or found at a host. */
  datatype Progress = Open(st: IdState) | Found(host: string)

  function Position(asked: seq<nat>, i: nat): (r: Option<nat>)
    ensures r == None <==> i !in asked
    ensures r.Some? ==> r.value < |asked| && asked[r.value] == i
  {
    if asked == [] then None
    else if asked[|asked| - 1] == i then Some(|asked| - 1)
    else Position(asked[..|asked| - 1], i)
  }

  /** What the reply says about query k, when it says nothing definite. */
  function Trouble(reply: Reply, k: nat): Fault {
    if k < |reply.answers| && reply.answers[k].Bad? then Given(reply.answers[k].code)
    else if reply.err.Some? then Given(reply.err.value)
    else if k < |reply.answers| then EmptyResult
    else Incomplete
  }

  predicate Says(reply: Reply, k: nat, a: Answer) {
    k < |reply.answers| && reply.answers[k] == a
  }

  function Judged(st: IdState, p: Provider, reply: Reply, k: nat): IdState {
    if Says(reply, k, Miss) then st.(sawNotFound := true, excl := st.excl.ExcludeForArticle(p))
    else st.(sawOther := true, lastErr := Some(Trouble(reply, k)))
  }

  /** One provider's turn, as one id sees it. */
  function Turn(was: Progress, v: Visit, i: nat): Progress {
    if was.Found? || i !in v.asked then was
    else
      var k := Position(v.asked, i).value;
      if Says(v.reply, k, Hit) then Found(v.p.host) else Open(Judged(was.st, v.p, v.reply, k))
  }

  function After(visits: seq<Visit>, i: nat): Progress {
    if visits == [] then Open(FRESH) else Turn(After(visits[..|visits| - 1], i), visits[|visits| - 1], i)
  }

  /** The error report for an id no provider had. */
  function Classify(st: IdState): Verdict {
    if st.sawNotFound && !st.sawOther then Missing
    else if st.lastErr.Some? then Failed(st.lastErr.value)
    else if st.sawNotFound then Failed(Split)
    else Failed(Unverified)
  }

  function Conclusion(x: Progress): Verdict {
    if x.Found? then Available(x.host) else Classify(x.st)
  }

  /** Provider v.p told us a about id i. */
  ghost predicate Told(v: Visit, i: nat, a: Answer) {
    i in v.asked && Says(v.reply, Position(v.asked, i).value, a)
  }

  predicate Increasing(s: seq<nat>, n: nat) {
    && (forall k :: 0 <= k < |s| ==> s[k] < n)
    && (forall k, m :: 0 <= k < m < |s| ==> s[k] < s[m])
  }

  /** Turn t asked about exactly the ids still open that its provider is not excluded for. */
  ghost predicate AskedRightly(visits: seq<Visit>, t: nat, n: nat, skip: set<string>)
    requires t < |visits|
  {
    var v := visits[t];
    forall i :: 0 <= i < n ==> (i in v.asked <==>
      v.p.host !in skip && After(visits[..t], i).Open? && !After(visits[..t], i).st.excl.Excludes(v.p))
  }

  // What a verdict means.

  /** How an open id's state summarises all that was said about it. */
  ghost predicate Summary(st: IdState, visits: seq<Visit>, i: nat) {
    && (st.sawNotFound <==> exists t :: 0 <= t < |visits| && Told(visits[t], i, Miss))
    && (st.sawOther <==> exists t :: 0 <= t < |visits| && i in visits[t].asked && !Told(visits[t], i, Miss))
    && (st.lastErr.Some? <==> st.sawOther)
  }

  /** The last word that was neither a hit nor a miss. */
  ghost predicate LastTrouble(f: Fault, visits: seq<Visit>, i: nat) {
    exists t :: 0 <= t < |visits| && i in visits[t].asked && !Told(visits[t], i, Miss)
      && f == Trouble(visits[t].reply, Position(visits[t].asked, i).value)
      && forall u :: t < u < |visits| && i in visits[u].asked ==> Told(visits[u], i, Miss)
  }

  lemma {:induction false} SummaryHolds(visits: seq<Visit>, i: nat)
    requires After(visits, i).Open?
    ensures Summary(After(visits, i).st, visits, i)
  {
    if visits != [] {
      var n := |visits| - 1;
      var init, v := visits[..n], visits[n];
      SummaryHolds(init, i);
      assert forall t :: 0 <= t < n ==> visits[t] == init[t];
      assert Told(v, i, Miss) ==> i in v.asked;
      var st, st' := After(init, i).st, After(visits, i).st;
      assert st'.sawNotFound <==> st.sawNotFound || Told(v, i, Miss);
      assert st'.sawOther <==> st.sawOther || (i in v.asked && !Told(v, i, Miss));
      hide After, Told;
    }
  }

  lemma {:induction false} LastTroubleHolds(visits: seq<Visit>, i: nat)
    requires After(visits, i).Open? && After(visits, i).st.lastErr.Some?
    ensures LastTrouble(After(visits, i).st.lastErr.value, visits, i)
  {
    var n := |visits| - 1;
    var init, v := visits[..n], visits[n];
    assert forall t :: 0 <= t < n ==> visits[t] == init[t];
    if i !in v.asked || Told(v, i, Miss) {
      LastTroubleHolds(init, i);
    }
    hide After, Told;
  }

  /** An id is found exactly when some provider said it has it, and stays where it was first found. */
  lemma {:induction false} FoundMeansHit(visits: seq<Visit>, i: nat)
    ensures After(visits, i).Found? <==> exists t :: 0 <= t < |visits| && Told(visits[t], i, Hit)
    ensures After(visits, i).Found? ==>
      exists t :: 0 <= t < |visits| && Told(visits[t], i, Hit) && visits[t].p.host == After(visits, i).host
        && forall u :: 0 <= u < t ==> !Told(visits[u], i, Hit)
  {
    if visits != [] {
      var n := |visits| - 1;
      var init := visits[..n];
      FoundMeansHit(init, i);
      assert forall t :: 0 <= t < n ==> visits[t] == init[t];
      if After(init, i).Found? {
        var t :| 0 <= t < n && Told(init[t], i, Hit) && init[t].p.host == After(init, i).host
          && forall u :: 0 <= u < t ==> !Told(init[u], i, Hit);
        assert Told(visits[t], i, Hit);
      }
    }
  }

  /** A provider is excluded for an id only on a not-found that covers it. */
  ghost predicate Vouched(visits: seq<Visit>, i: nat, p: Provider) {
    exists t :: 0 <= t < |visits| && Told(visits[t], i, Miss) && Covers(visits[t].p, p)
  }

  lemma {:induction false} ExclusionsAreVouched(visits: seq<Visit>, i: nat, p: Provider)
    requires After(visits, i).Open? && After(visits, i).st.excl.Excludes(p)
    ensures Vouched(visits, i, p)
  {
    if visits != [] {
      var n := |visits| - 1;
      var init := visits[..n];
      if After(init, i).st.excl.Excludes(p) {
        ExclusionsAreVouched(init, i, p);
        var t :| 0 <= t < n && Told(init[t], i, Miss) && Covers(init[t].p, p);
        assert visits[t] == init[t];
      } else {
        assert Told(visits[n], i, Miss) && Covers(visits[n].p, p);
      }
    }
  }

  lemma {:induction false} OpenBefore(visits: seq<Visit>, i: nat, t: nat)
    requires t <= |visits| && After(visits, i).Open?
    ensures After(visits[..t], i).Open?
  {
    if t < |visits| {
      OpenBefore(visits[..|visits| - 1], i, t);
      assert visits[..|visits| - 1][..t] == visits[..t];
    } else {
      assert visits[..t] == visits;
    }
  }

  ghost predicate AllAsked(visits: seq<Visit>, n: nat, skip: set<string>) {
    forall t :: 0 <= t < |visits| ==> AskedRightly(visits, t, n, skip)
  }

  /** An id is reported missing exactly when some provider said so and nobody asked said anything else. */
  lemma MissingIsProven(visits: seq<Visit>, i: nat)
    ensures Conclusion(After(visits, i)) == Missing <==>
      && (exists t :: 0 <= t < |visits| && Told(visits[t], i, Miss))
      && (forall t :: 0 <= t < |visits| && i in visits[t].asked ==> Told(visits[t], i, Miss))
  {
    if After(visits, i).Open? {
      SummaryHolds(visits, i);
    } else {
      FoundMeansHit(visits, i);
    }
  }

  /**
   Then every provider visited and not skipped said so itself, or is vouched for by
   one that did on the same host or backbone.
   */
  lemma MissingIsVouched(visits: seq<Visit>, i: nat, n: nat, skip: set<string>, t: nat)
    requires i < n && AllAsked(visits, n, skip) && Conclusion(After(visits, i)) == Missing
    requires t < |visits| && visits[t].p.host !in skip
    ensures Vouched(visits, i, visits[t].p)
  {
    MissingIsProven(visits, i);
    var p := visits[t].p;
    if i in visits[t].asked {
      assert Told(visits[t], i, Miss) && Covers(p, p);
    } else {
      OpenBefore(visits, i, t);
      assert AskedRightly(visits, t, n, skip);
      var init := visits[..t];
      ExclusionsAreVouched(init, i, p);
      var u :| 0 <= u < t && Told(init[u], i, Miss) && Covers(init[u].p, p);
      assert visits[u] == init[u];
    }
  }

  // The code.

  /** Where the run's variables put one id. */
  function At(unresolved: seq<nat>, states: seq<IdState>, results: seq<Verdict>, i: nat): Progress
    requires i < |states| == |results|
    requires i in unresolved || results[i].Available?
  {
    if i in unresolved then Open(states[i]) else Found(results[i].host)
  }

  ghost predicate Shaped(unresolved: seq<nat>, states: seq<IdState>, results: seq<Verdict>, n: nat) {
    && |states| == |results| == n
    && Increasing(unresolved, n)
    && forall i :: 0 <= i < n && i !in unresolved ==> results[i].Available?
  }

  lemma NothingToOrder(n: nat)
    ensures Increasing([], n)
  {
  }

  /** One past the u-th id of an increasing sequence. */
  function Past(s: seq<nat>, u: nat): nat
    requires u <= |s|
  {
    if u == 0 then 0 else s[u - 1] + 1
  }

  lemma PastNext(s: seq<nat>, u: nat, n: nat)
    requires Increasing(s, n) && u < |s|
    ensures Past(s, u) <= s[u] < n && Past(s, u + 1) == s[u] + 1
    ensures forall i :: i in s && i < s[u] ==> i < Past(s, u)
  {
    forall i | i in s && i < s[u]
      ensures i < Past(s, u)
    {
      var k :| 0 <= k < |s| && s[k] == i;
      assert k < u;
    }
  }

  /** The q-th id asked about is the next one in line that is not excluded. */
  lemma NextAsked(unresolved: seq<nat>, u: nat, asked: seq<nat>, q: nat, n: nat)
    requires Increasing(unresolved, n) && Increasing(asked, n) && u < |unresolved| && q <= |asked|
    requires forall i :: i in asked ==> i in unresolved
    requires forall k :: 0 <= k < q ==> asked[k] < Past(unresolved, u)
    requires forall k :: q <= k < |asked| ==> asked[k] >= Past(unresolved, u)
    ensures var x := unresolved[u];
      var q' := if x in asked then q + 1 else q;
      && (x in asked ==> q < |asked| && asked[q] == x && Position(asked, x) == Some(q))
      && (forall k :: 0 <= k < q' ==> asked[k] < Past(unresolved, u + 1))
      && (forall k :: q' <= k < |asked| ==> asked[k] >= Past(unresolved, u + 1))
  {
    var x := unresolved[u];
    PastNext(unresolved, u, n);
    forall k | q <= k < |asked|
      ensures asked[k] >= x
    {
      assert asked[k] in asked && asked[k] in unresolved;
    }
    if x in asked {
      var k := Position(asked, x).value;
      assert k >= q;
      assert asked[q] in asked;
    } else {
      forall k | q <= k < |asked|
        ensures asked[k] != x
      {
        assert asked[k] in asked;
      }
    }
  }

  lemma AppendInOrder(s: seq<nat>, x: nat, n: nat)
    requires Increasing(s, n) && x < n && forall i :: i in s ==> i < x
    ensures Increasing(s + [x], n)
  {
    forall k | 0 <= k < |s|
      ensures s[k] < x
    {
      assert s[k] in s;
    }
  }

  /** The ids still open that this provider is not excluded for. */
  method Eligible(unresolved: seq<nat>, states: seq<IdState>, p: Provider) returns (asked: seq<nat>)
    requires Increasing(unresolved, |states|)
    ensures Increasing(asked, |states|)
    ensures forall i :: i in asked <==> i in unresolved && !states[i].excl.Excludes(p)
  {
    asked := [];
    for u := 0 to |unresolved|
      invariant Increasing(asked, |states|)
      invariant forall i :: i in asked <==> i in unresolved && i < Past(unresolved, u) && !states[i].excl.Excludes(p)
    {
      PastNext(unresolved, u, |states|);
      AppendInOrder(asked, unresolved[u], |states|);
      if !states[unresolved[u]].excl.Excludes(p) {
        asked := asked + [unresolved[u]];
      }
    }
  }

  /** One id's turn with the provider that was asked: asked about it or not, answered or not. */
  method SettleOne(st: IdState, p: Provider, reply: Reply, pos: nat) returns (found: bool, st': IdState)
    ensures found == Says(reply, pos, Hit)
    ensures found ==> st' == st
    ensures !found ==> st' == Judged(st, p, reply, pos)
  {
    found, st' := false, st;
    if pos >= |reply.answers| {
      return false, st.(sawOther := true, lastErr := Some(if reply.err.Some? then Given(reply.err.value) else Incomplete));
    }
    match reply.answers[pos] {
      case Hit => found := true;
      case Miss => st' := st.(sawNotFound := true, excl := st.excl.ExcludeForArticle(p));
      case Bad(code) => st' := st.(sawOther := true, lastErr := Some(Given(code)));
      case Empty => st' := st.(sawOther := true,
        lastErr := Some(if reply.err.Some? then Given(reply.err.value) else EmptyResult));
    }
  }

  lemma TurnIs(st: IdState, v: Visit, i: nat, k: nat)
    requires i in v.asked ==> Position(v.asked, i) == Some(k)
    ensures Turn(Open(st), v, i) ==
      if i !in v.asked then Open(st)
      else if Says(v.reply, k, Hit) then Found(v.p.host)
      else Open(Judged(st, v.p, v.reply, k))
  {
  }

  /** The turn has been taken for every unresolved id below done, and for no other. */
  ghost predicate Midway(unresolved: seq<nat>, states: seq<IdState>, results: seq<Verdict>, v: Visit, done: nat,
                         left: seq<nat>, states': seq<IdState>, results': seq<Verdict>)
    requires |states| == |results| && forall i :: i in unresolved ==> i < |states|
  {
    && |states'| == |results'| == |states|
    && (forall i :: i in left ==> i in unresolved && i < done)
    && (forall i :: done <= i < |states| || (0 <= i < |states| && i !in unresolved) ==>
        states'[i] == states[i] && results'[i] == results[i])
    && (forall i :: i in unresolved && i < done ==>
        var after := Turn(Open(states[i]), v, i);
        if i in left then after == Open(states'[i]) else after.Found? && results'[i] == Available(after.host))
  }

  /** Taking one more id's turn. */
  lemma OneMore(unresolved: seq<nat>, states: seq<IdState>, results: seq<Verdict>, v: Visit, done: nat,
                left: seq<nat>, states': seq<IdState>, results': seq<Verdict>, idx: nat)
    requires |states| == |results| && forall i :: i in unresolved ==> i < |states|
    requires Midway(unresolved, states, results, v, done, left, states', results')
    requires done <= idx && idx in unresolved && forall i :: i in unresolved && i < idx ==> i < done
    ensures states'[idx] == states[idx]
    ensures match Turn(Open(states[idx]), v, idx)
      case Open(st) =>
        Midway(unresolved, states, results, v, idx + 1, left + [idx], states'[idx := st], results')
      case Found(host) =>
        Midway(unresolved, states, results, v, idx + 1, left, states', results'[idx := Available(host)])
  {
    hide Turn;
  }

  lemma MidwayEnds(unresolved: seq<nat>, states: seq<IdState>, results: seq<Verdict>, v: Visit, done: nat,
                   left: seq<nat>, states': seq<IdState>, results': seq<Verdict>)
    requires Shaped(unresolved, states, results, |states|) && Increasing(left, |states|)
    requires forall i :: i in unresolved ==> i < done
    requires forall i :: i in v.asked ==> i in unresolved
    requires Midway(unresolved, states, results, v, done, left, states', results')
    ensures Shaped(left, states', results', |states|)
    ensures forall i :: 0 <= i < |states| ==>
      At(left, states', results', i) == Turn(At(unresolved, states, results, i), v, i)
  {
    hide Increasing, Position, Says, Judged;
  }

  /** The reply is matched to the ids asked about by position alone. */
  method Settle(unresolved: seq<nat>, states: seq<IdState>, results: seq<Verdict>, p: Provider,
                asked: seq<nat>, reply: Reply)
    returns (left: seq<nat>, states': seq<IdState>, results': seq<Verdict>)
    requires Shaped(unresolved, states, results, |states|) && Increasing(asked, |states|)
    requires forall i :: i in asked <==> i in unresolved && !states[i].excl.Excludes(p)
    ensures Shaped(left, states', results', |states|)
    ensures forall i :: 0 <= i < |states| ==>
      At(left, states', results', i) == Turn(At(unresolved, states, results, i), Visit(p, asked, reply), i)
  {
    var n, v := |states|, Visit(p, asked, reply);
    NothingToOrder(n);
    assert forall i :: i in unresolved ==> i < n;
    left, states', results' := [], states, results;
    var queryPos := 0;
    ghost var q, done := 0, Past(unresolved, 0);
    assert Midway(unresolved, states, results, v, done, left, states', results');
    hide Increasing, Says, Judged, Position, Past, Turn, Midway;
    for u := 0 to |unresolved|
      invariant done == Past(unresolved, u)
      invariant q <= |asked| && queryPos == if q <= |reply.answers| then q else |reply.answers|
      invariant forall k :: 0 <= k < q ==> asked[k] < done
      invariant forall k :: q <= k < |asked| ==> asked[k] >= done
      invariant |states'| == |results'| == n && Increasing(left, n) && forall i :: i in left ==> i < done
      invariant Midway(unresolved, states, results, v, done, left, states', results')
    {
      var idx := unresolved[u];
      PastNext(unresolved, u, n);
      NextAsked(unresolved, u, asked, q, n);
      AppendInOrder(left, idx, n);
      TurnIs(states[idx], v, idx, q);
      OneMore(unresolved, states, results, v, done, left, states', results', idx);
      if states'[idx].excl.Excludes(p) {
        left := left + [idx];
        assert states' == states'[idx := states'[idx]];
      } else {
        var found, st := SettleOne(states'[idx], p, reply, queryPos);
        if found {
          results' := results'[idx := Available(p.host)];
        } else {
          states' := states'[idx := st];
          left := left + [idx];
        }
        q := q + 1;
        if queryPos < |reply.answers| {
          queryPos := queryPos + 1;
        }
      }
      done := Past(unresolved, u + 1);
    }
    PastAll(unresolved, n);
    MidwayEnds(unresolved, states, results, v, done, left, states', results');
  }

  lemma PastAll(s: seq<nat>, n: nat)
    requires Increasing(s, n)
    ensures forall i :: i in s ==> i < Past(s, |s|)
  {
  }

  function Seen(visits: seq<Visit>): (r: seq<Provider>)
    ensures |r| == |visits| && forall t :: 0 <= t < |r| ==> r[t] == visits[t].p
  {
    if visits == [] then [] else Seen(visits[..|visits| - 1]) + [visits[|visits| - 1].p]
  }

  /** Everyone there is to ask: the configured providers, and home even if it is not one of them. */
  ghost function Everyone(providers: seq<Provider>, home: Provider): multiset<Provider> {
    multiset(providers) + if exists p :: p in providers && p.host == home.host then multiset{} else multiset{home}
  }

  function IdsOf(ids: seq<string>, asked: seq<nat>): seq<string>
    requires forall k :: 0 <= k < |asked| ==> asked[k] < |ids|
  {
    seq(|asked|, k requires 0 <= k < |asked| => ids[asked[k]])
  }

  /** The t-th provider was sent exactly the ids it was asked about, and v.reply is what it said. */
  ghost predicate Genuine(ids: seq<string>, v: Visit, t: nat, ask: (nat, Provider, seq<string>) -> Reply) {
    && Increasing(v.asked, |ids|)
    && (v.asked != [] ==> v.reply == ask(t, v.p, IdsOf(ids, v.asked)))
  }

  /** The run's variables say of every id what the turns so far say. */
  ghost predicate Tracks(visits: seq<Visit>, unresolved: seq<nat>, states: seq<IdState>, results: seq<Verdict>, n: nat) {
    && Shaped(unresolved, states, results, n)
    && forall i :: 0 <= i < n ==> At(unresolved, states, results, i) == After(visits, i)
  }

  ghost predicate AllRight(visits: seq<Visit>, ids: seq<string>, skip: set<string>,
                           ask: (nat, Provider, seq<string>) -> Reply) {
    forall t :: 0 <= t < |visits| ==> AskedRightly(visits, t, |ids|, skip) && Genuine(ids, visits[t], t, ask)
  }

  /** A turn taken with a provider that is skipped, excluded for every id, or asked. */
  method TakeTurn(ids: seq<string>, unresolved: seq<nat>, states: seq<IdState>, results: seq<Verdict>, p: Provider,
                  skip: set<string>, ask: (nat, Provider, seq<string>) -> Reply, t: nat, ghost visits: seq<Visit>)
    returns (left: seq<nat>, states': seq<IdState>, results': seq<Verdict>, ghost v: Visit)
    requires Tracks(visits, unresolved, states, results, |ids|) && AllRight(visits, ids, skip, ask) && |visits| == t
    ensures Tracks(visits + [v], left, states', results', |ids|) && AllRight(visits + [v], ids, skip, ask)
    ensures v.p == p
  {
    left, states', results', v := unresolved, states, results, Visit(p, [], Reply([], None));
    var asked := [];
    if p.host !in skip {
      asked := Eligible(unresolved, states, p);
    }
    if asked != [] {
      var reply := ask(t, p, IdsOf(ids, asked));
      left, states', results' := Settle(unresolved, states, results, p, asked, reply);
      v := Visit(p, asked, reply);
    }
    TurnTaken(ids, unresolved, states, results, skip, ask, visits, v);
    assert (visits + [v])[..t] == visits;
    hide Shaped;
  }

  lemma TurnTaken(ids: seq<string>, unresolved: seq<nat>, states: seq<IdState>, results: seq<Verdict>,
                  skip: set<string>, ask: (nat, Provider, seq<string>) -> Reply, visits: seq<Visit>, v: Visit)
    requires Tracks(visits, unresolved, states, results, |ids|) && AllRight(visits, ids, skip, ask)
    requires Genuine(ids, v, |visits|, ask)
    requires forall i :: i in v.asked <==> v.p.host !in skip && i in unresolved && !states[i].excl.Excludes(v.p)
    ensures AllRight(visits + [v], ids, skip, ask)
  {
    var all := visits + [v];
    forall t | 0 <= t < |all|
      ensures AskedRightly(all, t, |ids|, skip) && Genuine(ids, all[t], t, ask)
    {
      assert all[..t] == visits[..t];
      if t == |visits| {
        assert visits[..t] == visits;
        forall i | 0 <= i < |ids|
          ensures At(unresolved, states, results, i) == After(visits, i)
        {
        }
      } else {
        assert AskedRightly(visits, t, |ids|, skip);
      }
    }
  }

  /** The first |visits| providers of the order have been visited, in that order, and nobody has been lost from it. */
  ghost predicate Visiting(visits: seq<Visit>, order: seq<Provider>, all: multiset<Provider>) {
    && |visits| <= |order|
    && Seen(visits) == order[..|visits|]
    && multiset(order) == all
  }

  lemma Advance(visits: seq<Visit>, v: Visit, order: seq<Provider>, all: multiset<Provider>)
    requires Visiting(visits, order, all) && |visits| < |order| && v.p == order[|visits|]
    ensures Visiting(visits + [v], order, all)
  {
    assert (visits + [v])[..|visits|] == visits;
  }

  lemma VisitedPart(visits: seq<Visit>, order: seq<Provider>, all: multiset<Provider>)
    requires Visiting(visits, order, all)
    ensures multiset(Seen(visits)) <= all
    ensures |visits| == |order| ==> multiset(Seen(visits)) == all
  {
    assert order == order[..|visits|] + order[|visits|..];
  }

  lemma Start(n: nat, unresolved: seq<nat>, states: seq<IdState>, results: seq<Verdict>)
    requires |unresolved| == |states| == |results| == n
    requires forall i :: 0 <= i < n ==> unresolved[i] == i && states[i] == FRESH
    ensures Tracks([], unresolved, states, results, n)
  {
    forall i | 0 <= i < n
      ensures i in unresolved
    {
      assert unresolved[i] == i;
    }
  }

  /**
   batchStatAcrossProviders. The providers are visited in an order the hint may change
   at every step; no error means every one of them was, unless nothing was left to ask.
   */
  method BatchStatAcrossProviders(ids: seq<string>, providers: seq<Provider>, home: Provider, skip: set<string>,
                                  lat: Latency, hints: nat -> Option<Hint>, cancelled: nat -> bool,
                                  ask: (nat, Provider, seq<string>) -> Reply)
    returns (results: seq<Verdict>, err: bool, ghost visits: seq<Visit>)
    ensures |results| == |ids| && AllRight(visits, ids, skip, ask)
    ensures multiset(Seen(visits)) <= Everyone(providers, home)
    ensures !err ==> forall i :: 0 <= i < |ids| ==> results[i] == Conclusion(After(visits, i))
    ensures !err && (exists i :: 0 <= i < |ids| && !results[i].Available?) ==>
      multiset(Seen(visits)) == Everyone(providers, home)
    ensures !err ==> forall i, p :: 0 <= i < |ids| && results[i] == Missing && p in providers && p.host !in skip ==>
      Vouched(visits, i, p)
  {
    hide *;
    var n := |ids|;
    ghost var all := Everyone(providers, home);
    results := seq(n, _ => Blank);
    var states := seq(n, _ => FRESH);
    var unresolved: seq<nat> := seq(n, (i: nat) => i);
    err, visits := false, [];
    Start(n, unresolved, states, results);
    var ordered, _ := StatOrder(providers, home, lat);
    var order := new Provider[|ordered|](k requires 0 <= k < |ordered| => ordered[k]);
    assert order[..] == ordered;
    NothingVisited(order[..], ids, skip, ask, providers, home);
    var next := 0;
    while next < order.Length && unresolved != []
      invariant next <= order.Length && |visits| == next
      invariant Tracks(visits, unresolved, states, results, n) && AllRight(visits, ids, skip, ask)
      invariant |states| == n && Visiting(visits, order[..], all)
      decreases order.Length - next
    {
      ghost var before := order[..];
      ApplyStatHint(order, next, hints(next));
      Reordered(visits, before, order[..], all);
      if cancelled(next) {
        VisitedPart(visits, order[..], all);
        TracksShape(visits, unresolved, states, results, n);
        return results, true, visits;
      }
      ghost var v;
      unresolved, states, results, v := TakeTurn(ids, unresolved, states, results, order[next], skip, ask, next, visits);
      Advance(visits, v, order[..], all);
      visits := visits + [v];
      TracksShape(visits, unresolved, states, results, n);
      next := next + 1;
    }
    VisitedPart(visits, order[..], all);
    results := Report(unresolved, states, results, visits);
    CoveredWhenMissing(ids, providers, skip, ask, visits, results, home);
  }

  lemma TracksShape(visits: seq<Visit>, unresolved: seq<nat>, states: seq<IdState>, results: seq<Verdict>, n: nat)
    requires Tracks(visits, unresolved, states, results, n)
    ensures |states| == |results| == n
  {
  }

  lemma NothingVisited(order: seq<Provider>, ids: seq<string>, skip: set<string>,
                       ask: (nat, Provider, seq<string>) -> Reply, providers: seq<Provider>, home: Provider)
    requires multiset(order) == multiset(providers) +
      if exists p :: p in providers && p.host == home.host then multiset{} else multiset{home}
    ensures Visiting([], order, Everyone(providers, home)) && AllRight([], ids, skip, ask)
  {
  }

  /** Moving about providers still to ask changes nothing that was done. */
  lemma Reordered(visits: seq<Visit>, before: seq<Provider>, order: seq<Provider>, all: multiset<Provider>)
    requires Visiting(visits, before, all)
    requires |order| == |before| && order[..|visits|] == before[..|visits|] && multiset(order) == multiset(before)
    ensures Visiting(visits, order, all)
  {
  }

  /** The switch after the loop: what each id no provider had is reported as. */
  method Report(unresolved: seq<nat>, states: seq<IdState>, results: seq<Verdict>, ghost visits: seq<Visit>)
    returns (results': seq<Verdict>)
    requires Tracks(visits, unresolved, states, results, |states|)
    ensures |results'| == |states|
    ensures forall i :: 0 <= i < |states| ==> results'[i] == Conclusion(After(visits, i))
    ensures unresolved == [] ==> forall i :: 0 <= i < |states| ==> results'[i].Available?
  {
    results' := results;
    for u := 0 to |unresolved|
      invariant |results'| == |states|
      invariant forall i :: 0 <= i < |states| ==>
        results'[i] == if i in unresolved && i < Past(unresolved, u) then Classify(states[i]) else results[i]
    {
      PastNext(unresolved, u, |states|);
      var idx := unresolved[u];
      results' := results'[idx := Classify(states[idx])];
    }
    PastAll(unresolved, |states|);
    forall i | 0 <= i < |states|
      ensures results'[i] == Conclusion(After(visits, i))
      ensures unresolved == [] ==> results'[i].Available?
    {
      assert At(unresolved, states, results, i) == After(visits, i);
      assert i in unresolved ==> i < Past(unresolved, |unresolved|);
    }
  }

  lemma CoveredWhenMissing(ids: seq<string>, providers: seq<Provider>, skip: set<string>,
                           ask: (nat, Provider, seq<string>) -> Reply, visits: seq<Visit>, results: seq<Verdict>, home: Provider)
    requires AllRight(visits, ids, skip, ask) && |results| == |ids|
    requires forall i :: 0 <= i < |ids| ==> results[i] == Conclusion(After(visits, i))
    requires (exists i :: 0 <= i < |ids| && !results[i].Available?) ==> multiset(Seen(visits)) == Everyone(providers, home)
    ensures forall i, p :: 0 <= i < |ids| && results[i] == Missing && p in providers && p.host !in skip ==>
      Vouched(visits, i, p)
  {
    hide Conclusion, After, Vouched, AskedRightly, Genuine;
    forall i, p | 0 <= i < |ids| && results[i] == Missing && p in providers && p.host !in skip
      ensures Vouched(visits, i, p)
    {
      assert AllAsked(visits, |ids|, skip);
      assert p in multiset(Seen(visits));
      var t :| 0 <= t < |visits| && Seen(visits)[t] == p;
      MissingIsVouched(visits, i, |ids|, skip, t);
    }
  }
}
