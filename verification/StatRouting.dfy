/**
 internal/nntp/stat_routing.go: statOrder and applyStatHint. Both sort a slice of
 providers in place by values that other goroutines keep changing, so the answer
 a comparison gives is an arbitrary function of when it is made.
 */
module StatRouting {
  import opened Options
  import opened Providers

  /** less(t, x, y): what the t-th comparison says when it is asked about x and y. */
  type Less<!T> = (nat, T, T) -> bool

  function Swap<T>(s: seq<T>, j: nat): (r: seq<T>)
    requires 0 < j < |s|
  {
    s[j - 1 := s[j]][j := s[j - 1]]
  }

  /** Moves element j down while it compares less than the one before it; also the comparisons made so far. */
  function Sink<T>(s: seq<T>, lo: nat, j: nat, t: nat, less: Less<T>): (r: (seq<T>, nat))
    requires lo <= j < |s|
    ensures |r.0| == |s| && r.0[..lo] == s[..lo] && r.0[j + 1..] == s[j + 1..]
    decreases j
  {
    if j == lo then (s, t)
    else if !less(t, s[j], s[j - 1]) then (s, t + 1)
    else Sink(Swap(s, j), lo, j - 1, t + 1, less)
  }

  /** sort.SliceStable over s[lo..], of which s[lo..i] is done. */
  function SortFrom<T>(s: seq<T>, lo: nat, i: nat, t: nat, less: Less<T>): (r: (seq<T>, nat))
    requires lo <= i <= |s|
    ensures |r.0| == |s| && r.0[..lo] == s[..lo]
    decreases |s| - i
  {
    if i == |s| then (s, t)
    else
      var x := Sink(s, lo, i, t, less);
      SortFrom(x.0, lo, i + 1, x.1, less)
  }

  lemma SwapPermutes<T>(s: seq<T>, j: nat)
    requires 0 < j < |s|
    ensures multiset(Swap(s, j)) == multiset(s)
  {
    assert s == s[..j - 1] + [s[j - 1], s[j]] + s[j + 1..];
    assert Swap(s, j) == s[..j - 1] + [s[j], s[j - 1]] + s[j + 1..];
  }

  lemma {:induction false} SinkPermutes<T>(s: seq<T>, lo: nat, j: nat, t: nat, less: Less<T>)
    requires lo <= j < |s|
    ensures multiset(Sink(s, lo, j, t, less).0) == multiset(s)
    decreases j
  {
    if j > lo && less(t, s[j], s[j - 1]) {
      SwapPermutes(s, j);
      SinkPermutes(Swap(s, j), lo, j - 1, t + 1, less);
    }
  }

  /** However inconsistent the comparisons, no element is lost or repeated. */
  lemma {:induction false} SortPermutes<T>(s: seq<T>, lo: nat, i: nat, t: nat, less: Less<T>)
    requires lo <= i <= |s|
    ensures multiset(SortFrom(s, lo, i, t, less).0) == multiset(s)
    decreases |s| - i
  {
    if i < |s| {
      var x := Sink(s, lo, i, t, less);
      SinkPermutes(s, lo, i, t, less);
      SortPermutes(x.0, lo, i + 1, x.1, less);
    }
  }

  /** The comparisons agree with one strict weak order throughout. */
  ghost predicate Steady<T(!new)>(less: Less<T>, prec: (T, T) -> bool) {
    && (forall t: nat, x, y :: less(t, x, y) == prec(x, y))
    && (forall x, y :: prec(x, y) ==> !prec(y, x))
    && (forall x, y, z :: !prec(x, y) && !prec(y, z) ==> !prec(x, z))
  }

  ghost predicate SortedBy<T>(s: seq<T>, lo: nat, hi: nat, prec: (T, T) -> bool)
    requires hi <= |s|
  {
    forall a, b :: lo <= a < b < hi ==> !prec(s[b], s[a])
  }

  /** The elements of s that neither precede nor follow x, in their order. */
  function Peers<T>(s: seq<T>, x: T, prec: (T, T) -> bool): (r: seq<T>) {
    if s == [] then []
    else (if !prec(s[0], x) && !prec(x, s[0]) then [s[0]] else []) + Peers(s[1..], x, prec)
  }

  lemma {:induction false} PeersConcat<T>(s: seq<T>, s': seq<T>, x: T, prec: (T, T) -> bool)
    ensures Peers(s + s', x, prec) == Peers(s, x, prec) + Peers(s', x, prec)
  {
    if s == [] {
      assert s + s' == s';
    } else {
      assert (s + s')[1..] == s[1..] + s';
      PeersConcat(s[1..], s', x, prec);
    }
  }

  /** Two neighbours that compare as different are never peers of the same element. */
  lemma NotBothPeers<T(!new)>(a: T, b: T, x: T, prec: (T, T) -> bool)
    requires prec(b, a)
    requires forall x, y, z :: !prec(x, y) && !prec(y, z) ==> !prec(x, z)
    ensures Peers([a, b], x, prec) == Peers([b, a], x, prec)
  {
    assert prec(x, a) || prec(b, x);
    assert [a, b][1..] == [b] && [b, a][1..] == [a];
    assert Peers([a], x, prec) == [] || Peers([b], x, prec) == [];
  }

  lemma SwapKeepsPeers<T(!new)>(s: seq<T>, j: nat, x: T, prec: (T, T) -> bool)
    requires 0 < j < |s| && prec(s[j], s[j - 1])
    requires forall x, y, z :: !prec(x, y) && !prec(y, z) ==> !prec(x, z)
    ensures Peers(Swap(s, j), x, prec) == Peers(s, x, prec)
  {
    hide Peers;
    var front, pair, back := s[..j - 1], [s[j - 1], s[j]], s[j + 1..];
    var swapped := [s[j], s[j - 1]];
    assert s == front + pair + back;
    assert Swap(s, j) == front + swapped + back;
    NotBothPeers(s[j - 1], s[j], x, prec);
    PeersConcat(front + pair, back, x, prec);
    PeersConcat(front, pair, x, prec);
    PeersConcat(front + swapped, back, x, prec);
    PeersConcat(front, swapped, x, prec);
  }

  /** Element j sinks to its place: everything else stays sorted around it. */
  lemma {:induction false} SinkSorts<T(!new)>(s: seq<T>, lo: nat, j: nat, hi: nat, t: nat, less: Less<T>, prec: (T, T) -> bool)
    requires lo <= j < hi <= |s| && Steady(less, prec)
    requires forall a, b :: lo <= a < b < hi && b != j ==> !prec(s[b], s[a])
    ensures SortedBy(Sink(s, lo, j, t, less).0, lo, hi, prec)
    ensures forall x :: Peers(Sink(s, lo, j, t, less).0, x, prec) == Peers(s, x, prec)
    decreases j
  {
    if j > lo {
      if less(t, s[j], s[j - 1]) {
        var s' := Swap(s, j);
        forall a, b | lo <= a < b < hi && b != j - 1
          ensures !prec(s'[b], s'[a])
        {
          assert b == j ==> !prec(s[j - 1], s[j]);
        }
        SinkSorts(s', lo, j - 1, hi, t + 1, less, prec);
        forall x
          ensures Peers(s', x, prec) == Peers(s, x, prec)
        {
          SwapKeepsPeers(s, j, x, prec);
        }
      } else {
        forall a | lo <= a < j
          ensures !prec(s[j], s[a])
        {
          assert a < j - 1 ==> !prec(s[j - 1], s[a]);
        }
      }
    }
  }

  /** With comparisons that hold still the sort does sort, and keeps equal elements in order. */
  lemma {:induction false} SortSorts<T(!new)>(s: seq<T>, lo: nat, i: nat, t: nat, less: Less<T>, prec: (T, T) -> bool)
    requires lo <= i <= |s| && Steady(less, prec) && SortedBy(s, lo, i, prec)
    ensures SortedBy(SortFrom(s, lo, i, t, less).0, lo, |s|, prec)
    ensures forall x :: Peers(SortFrom(s, lo, i, t, less).0, x, prec) == Peers(s, x, prec)
    decreases |s| - i
  {
    if i < |s| {
      var x := Sink(s, lo, i, t, less);
      SinkSorts(s, lo, i, i + 1, t, less, prec);
      SortSorts(x.0, lo, i + 1, x.1, less, prec);
    }
  }

  /** sort.SliceStable of a[lo..], in place. */
  method StableSort<T>(a: array<T>, lo: nat, less: Less<T>)
    requires lo <= a.Length
    modifies a
    ensures a[..] == SortFrom(old(a[..]), lo, lo, 0, less).0
  {
    ghost var was := a[..];
    var t := 0;
    for i := lo to a.Length
      invariant SortFrom(a[..], lo, i, t, less) == SortFrom(was, lo, lo, 0, less)
    {
      ghost var s := a[..];
      ghost var t0 := t;
      var j := i;
      while j > lo
        invariant lo <= j <= i
        invariant Sink(a[..], lo, j, t, less) == Sink(s, lo, i, t0, less)
      {
        t := t + 1;
        if !less(t - 1, a[j], a[j - 1]) {
          break;
        }
        ghost var before := a[..];
        a[j - 1], a[j] := a[j], a[j - 1];
        assert a[..] == Swap(before, j);
        j := j - 1;
      }
      assert (a[..], t) == Sink(s, lo, i, t0, less);
    }
  }

  /** Primaries before backups; within each, providers the hint marks absent last. */
  function Rank(p: Provider, absent: bool): nat {
    (if p.backup then 2 else 0) + if absent then 1 else 0
  }

  /** hint(t, host): whether the t-th reading of the hint marks the host absent. */
  type Hint = (nat, string) -> bool

  /** rank(p) < rank(q), each side reading the hint afresh; the readings before these are other ones. */
  function ByRank(hint: Hint, before: nat): Less<Provider> {
    (t: nat, p: Provider, q: Provider) =>
      Rank(p, hint(before + 2 * t, p.host)) < Rank(q, hint(before + 2 * t + 1, q.host))
  }

  function RankOrder(hint: Hint): (Provider, Provider) -> bool {
    (p: Provider, q: Provider) => Rank(p, hint(0, p.host)) < Rank(q, hint(0, q.host))
  }

  /** What the hint says does not change while the sort reads it. */
  ghost predicate Still(hint: Hint) {
    forall t: nat, h :: hint(t, h) == hint(0, h)
  }

  /** The rest of the order as a hint that holds still leaves it. */
  ghost predicate Demoted(was: seq<Provider>, order: seq<Provider>, lo: nat, hint: Hint)
    requires lo <= |order|
  {
    var prec := RankOrder(hint);
    && (forall p :: Peers(order, p, prec) == Peers(was, p, prec))
    && ((forall k :: lo <= k < |was| ==> !hint(0, was[k].host)) ==> order == was)
    && ((exists k :: lo <= k < |was| && hint(0, was[k].host)) && lo + 2 <= |was| ==>
        SortedBy(order, lo, |order|, prec))
  }

  lemma RankIsSteady(hint: Hint, before: nat)
    requires Still(hint)
    ensures Steady(ByRank(hint, before), RankOrder(hint))
  {
    var less, prec := ByRank(hint, before), RankOrder(hint);
    forall t: nat, p, q
      ensures less(t, p, q) == prec(p, q)
    {
      var n := before + 2 * t;
      assert hint(n, p.host) == hint(0, p.host) && hint(n + 1, q.host) == hint(0, q.host);
    }
    forall x, y, z | !prec(x, y) && !prec(y, z)
      ensures !prec(x, z)
    {
    }
  }

  /**
   applyStatHint on order[lo..]: it never drops, adds or moves an asked provider, and
   when the hint holds still the rest is stably sorted by rank.
   */
  method ApplyStatHint(order: array<Provider>, lo: nat, hint: Option<Hint>)
    requires lo <= order.Length
    modifies order
    ensures order[..lo] == old(order[..lo])
    ensures multiset(order[..]) == multiset(old(order[..]))
    ensures hint == None ==> order[..] == old(order[..])
    ensures hint.Some? && Still(hint.value) ==> Demoted(old(order[..]), order[..], lo, hint.value)
  {
    if hint == None || order.Length - lo < 2 {
      return;
    }
    hide Peers, SortedBy;
    ghost var was := order[..];
    var demoted := false;
    for i := lo to order.Length
      invariant order[..] == was
      invariant !demoted && Still(hint.value) ==> forall k :: lo <= k < i ==> !hint.value(0, was[k].host)
      invariant demoted && Still(hint.value) ==> exists k :: lo <= k < i && hint.value(0, was[k].host)
    {
      demoted := demoted || hint.value(i, order[i].host);
    }
    if demoted {
      var less := ByRank(hint.value, order.Length);
      StableSort(order, lo, less);
      SortPermutes(was, lo, lo, 0, less);
      if Still(hint.value) {
        RankIsSteady(hint.value, order.Length);
        SortSorts(was, lo, lo, 0, less, RankOrder(hint.value));
      }
    }
  }

  datatype Place = First | Primary | Backup

  function PlaceOf(p: Provider, home: Provider): Place {
    if p.host == home.host then First else if p.backup then Backup else Primary
  }

  /** The providers that belong in one place, in priority order. */
  function Pick(ps: seq<Provider>, home: Provider, place: Place): (r: seq<Provider>) {
    if ps == [] then []
    else
      var last := ps[|ps| - 1];
      Pick(ps[..|ps| - 1], home, place) + if PlaceOf(last, home) == place then [last] else []
  }

  lemma {:induction false} PickPartitions(ps: seq<Provider>, home: Provider)
    ensures multiset(Pick(ps, home, First)) + multiset(Pick(ps, home, Primary)) + multiset(Pick(ps, home, Backup))
      == multiset(ps)
  {
    if ps != [] {
      var last := ps[|ps| - 1];
      assert ps == ps[..|ps| - 1] + [last];
      PickPartitions(ps[..|ps| - 1], home);
    }
  }

  /** lat(t, host): the t-th reading of a provider's measured latency, 0 for none. */
  type Latency = (nat, string) -> int

  predicate Faster(l: int, m: int) {
    l != 0 && (m == 0 || l < m)
  }

  function ByLatency(lat: Latency): Less<Provider> {
    (t: nat, p: Provider, q: Provider) => Faster(lat(2 * t, p.host), lat(2 * t + 1, q.host))
  }

  function LatencyOrder(lat: Latency): (Provider, Provider) -> bool {
    (p: Provider, q: Provider) => Faster(lat(0, p.host), lat(0, q.host))
  }

  ghost predicate StillLatency(lat: Latency) {
    forall t: nat, h :: lat(t, h) == lat(0, h)
  }

  /** Primaries fastest first, unmeasured ones last, equals in priority order. */
  ghost predicate FastestFirst(primaries: seq<Provider>, was: seq<Provider>, lat: Latency) {
    && SortedBy(primaries, 0, |primaries|, LatencyOrder(lat))
    && forall p :: Peers(primaries, p, LatencyOrder(lat)) == Peers(was, p, LatencyOrder(lat))
  }

  /** Whom statOrder puts first: home as configured, or as given when it is not. */
  function Homes(ps: seq<Provider>, home: Provider): (r: seq<Provider>)
    ensures r != [] && forall i :: 0 <= i < |r| ==> r[i].host == home.host
  {
    var configured := Pick(ps, home, First);
    PickHosts(ps, home);
    if configured == [] then [home] else configured
  }

  lemma PickHosts(ps: seq<Provider>, home: Provider)
    ensures forall i :: 0 <= i < |Pick(ps, home, First)| ==> Pick(ps, home, First)[i].host == home.host
  {
  }

  lemma LatencyIsSteady(lat: Latency)
    requires StillLatency(lat)
    ensures Steady(ByLatency(lat), LatencyOrder(lat))
  {
    var less, prec := ByLatency(lat), LatencyOrder(lat);
    forall t: nat, p, q
      ensures less(t, p, q) == prec(p, q)
    {
      var n := 2 * t;
      assert lat(n, p.host) == lat(0, p.host) && lat(n + 1, q.host) == lat(0, q.host);
    }
    forall p, q
      ensures prec(p, q) == Faster(lat(0, p.host), lat(0, q.host))
    {
    }
    forall p, q | prec(p, q)
      ensures !prec(q, p)
    {
      assert Faster(lat(0, p.host), lat(0, q.host));
    }
    forall p, q, r | !prec(p, q) && !prec(q, r)
      ensures !prec(p, r)
    {
      assert !Faster(lat(0, p.host), lat(0, q.host)) && !Faster(lat(0, q.host), lat(0, r.host));
    }
  }

  /** statOrder: every configured provider exactly once, home first, backups last. */
  method StatOrder(providers: seq<Provider>, home: Provider, lat: Latency)
    returns (order: seq<Provider>, ghost primaries: seq<Provider>)
    ensures order == Homes(providers, home) + primaries + Pick(providers, home, Backup)
    ensures multiset(primaries) == multiset(Pick(providers, home, Primary))
    ensures StillLatency(lat) ==> FastestFirst(primaries, Pick(providers, home, Primary), lat)
    ensures multiset(order) == multiset(providers) +
      if exists p :: p in providers && p.host == home.host then multiset{} else multiset{home}
  {
    var first, prims, backups := [], [], [];
    for i := 0 to |providers|
      invariant first == Pick(providers[..i], home, First)
      invariant prims == Pick(providers[..i], home, Primary)
      invariant backups == Pick(providers[..i], home, Backup)
    {
      var p := providers[i];
      assert providers[..i + 1][..i] == providers[..i];
      if p.host == home.host {
        first := first + [p];
      } else if p.backup {
        backups := backups + [p];
      } else {
        prims := prims + [p];
      }
    }
    assert providers[..|providers|] == providers;
    if first == [] {
      first := [home];
    }
    var a := new Provider[|prims|](i requires 0 <= i < |prims| => prims[i]);
    assert a[..] == prims;
    StableSort(a, 0, ByLatency(lat));
    OrderIsComplete(providers, home, prims, lat);
    primaries := a[..];
    order := first + a[..] + backups;
  }

  lemma OrderIsComplete(ps: seq<Provider>, home: Provider, prims: seq<Provider>, lat: Latency)
    requires prims == Pick(ps, home, Primary)
    ensures var r := SortFrom(prims, 0, 0, 0, ByLatency(lat)).0;
      && multiset(r) == multiset(prims)
      && (StillLatency(lat) ==> FastestFirst(r, prims, lat))
      && multiset(Homes(ps, home) + r + Pick(ps, home, Backup)) == multiset(ps) +
        if exists p :: p in ps && p.host == home.host then multiset{} else multiset{home}
  {
    SortPermutes(prims, 0, 0, 0, ByLatency(lat));
    if StillLatency(lat) {
      LatencyIsSteady(lat);
      SortSorts(prims, 0, 0, 0, ByLatency(lat), LatencyOrder(lat));
    }
    PickPartitions(ps, home);
    PickFindsHome(ps, home);
  }

  lemma {:induction false} PickFindsHome(ps: seq<Provider>, home: Provider)
    ensures Pick(ps, home, First) != [] <==> exists p :: p in ps && p.host == home.host
  {
    if ps != [] {
      var last := ps[|ps| - 1];
      assert ps == ps[..|ps| - 1] + [last];
      PickFindsHome(ps[..|ps| - 1], home);
    }
  }
}
