/**
 internal/nntp/client.go: ExecuteWithFailover, with the retry loop of
 internal/retry/retry.go it runs inside. What providers answer, which free
 connection the pool hands out and when the caller's context ends are arbitrary
 functions of how often they have been consulted.
 */
module Failover {

  import opened Options
  import opened Sets
  import opened Providers

  /**
   The error kinds ExecuteWithFailover tells apart. Corrupt and Decode are both
   ErrorTypeYencDecode, Corrupt being the article's own fault; OtherNntp stands for
   every other typed NNTP error; Panic is a recovered panic; Plain is an error of
   no NNTP type, such as the context's.
   */
  datatype Err = NotFound | Timeout | Connection | Busy | Corrupt | Decode | OtherNntp | Panic | Plain

  predicate Typed(e: Err) {
    !e.Panic? && !e.Plain?
  }

  predicate Retriable(e: Err) {
    e.Connection? || e.Timeout? || e.Busy?
  }

  /** Failing to get a connection is never an answer about the article. */
  datatype DialErr = DialTimeout | DialConnection | DialBusy | DialOther | DialPlain

  function ToErr(d: DialErr): Err {
    match d
    case DialTimeout => Timeout
    case DialConnection => Connection
    case DialBusy => Busy
    case DialOther => OtherNntp
    case DialPlain => Plain
  }

  /** A checked-out connection and the provider whose server is at its other end. */
  datatype Conn = Conn(provider: Provider, closed: bool)

  /**
   One provider looked at by the non-blocking scan: which one, whether its pool had
   a free slot, and how getOrCreateFromPool then fared. Which providers come up, in
   which order, is the business of tiers, cooldowns and measured speeds.
   */
  datatype Probe = Probe(i: nat, free: bool, dial: Option<DialErr>)

  /** raceForConnection: a connection to provider i with its slot held, or a failure with none. */
  datatype Offer = Offer(i: nat) | NoOffer(e: DialErr)

  /** How one run of the operation ends, and whether it left the connection closed. */
  datatype Answer = Answer(err: Option<Err>, closes: bool)

  datatype Outcome = Outcome(p: Provider, e: Err)

  /** The last typed NNTP error a host gave, in the order the errors came. */
  function Latest(log: seq<Outcome>, host: string): Option<Err> {
    if log == [] then None
    else
      var o := log[|log| - 1];
      if o.p.host == host && Typed(o.e) then Some(o.e) else Latest(log[..|log| - 1], host)
  }

  ghost predicate Said(log: seq<Outcome>, e: Err) {
    exists i :: 0 <= i < |log| && log[i].e == e
  }

  /** Some provider on this backbone answered that the article is missing or damaged. */
  ghost predicate BackboneAnswered(log: seq<Outcome>, backbone: string) {
    exists i :: 0 <= i < |log| && log[i].p.backbone == backbone && (log[i].e == NotFound || log[i].e == Corrupt)
  }

  /** p's latest typed error was a timeout and nobody on its backbone gave an answer. */
  ghost predicate Unheard(log: seq<Outcome>, p: Provider) {
    Latest(log, p.host) == Some(Timeout) && !(p.backbone != "" && BackboneAnswered(log, p.backbone))
  }

  lemma SaidStays(log: seq<Outcome>, o: Outcome)
    ensures forall e :: Said(log + [o], e) <==> Said(log, e) || e == o.e
    ensures forall b :: BackboneAnswered(log + [o], b) <==>
      BackboneAnswered(log, b) || (Verdict(Some(o.e)) && b == o.p.backbone)
  {
    var all := log + [o];
    assert all[|log|] == o;
    forall e | Said(log, e)
      ensures Said(all, e)
    {
      var i :| 0 <= i < |log| && log[i].e == e;
      assert all[i].e == e;
    }
    forall b | BackboneAnswered(log, b)
      ensures BackboneAnswered(all, b)
    {
      var i :| 0 <= i < |log| && log[i].p.backbone == b && (log[i].e == NotFound || log[i].e == Corrupt);
      assert all[i] == log[i];
    }
  }

  /** The last answer any provider gave was a damaged copy. */
  predicate Corrupted(log: seq<Outcome>) {
    log != [] && log[|log| - 1].e == Corrupt
  }

  /** An error that answers for the article, and so for a whole backbone. */
  predicate Verdict(e: Option<Err>) {
    e == Some(NotFound) || e == Some(Corrupt)
  }

  /** Errors that end the call at once instead of moving on to another provider. */
  predicate Final(e: Err) {
    e.Decode? || e.OtherNntp? || e.Plain?
  }

  /** What a call reports once some provider has answered 430 and none is left to ask. */
  ghost function Verdicts(providers: seq<Provider>, log: seq<Outcome>): Err {
    if exists p :: p in providers && Unheard(log, p) then Timeout
    else if Corrupted(log) then Corrupt
    else NotFound
  }

  /** The host was asked, and gave an error. */
  ghost predicate Asked(log: seq<Outcome>, host: string) {
    exists i :: 0 <= i < |log| && log[i].p.host == host
  }

  /**
   What a not-found promises of p: a provider on its backbone answered, or p itself
   failed, last of all with something other than a timeout.
   */
  ghost predicate Accounted(log: seq<Outcome>, p: Provider) {
    || (p.backbone != "" && BackboneAnswered(log, p.backbone))
    || (Asked(log, p.host) && Latest(log, p.host) != Some(Timeout))
  }

  /** The providers the exclusions leave to be asked. */
  function Allowed(providers: seq<Provider>, excl: Exclusions): set<Provider> {
    set p | p in providers && !excl.Excludes(p)
  }

  /** A host is excluded only for an error it gave. */
  ghost predicate HostsAsked(log: seq<Outcome>, excl: Exclusions) {
    forall h :: h in excl.hosts ==> Asked(log, h)
  }

  /** Excluding the provider of the last answer leaves fewer to ask, and blames nobody else. */
  lemma BlamedOneMore(providers: seq<Provider>, log: seq<Outcome>, was: seq<Outcome>, excl: Exclusions, e: Err, p: Provider)
    requires p in providers && !excl.Excludes(p) && p.host != ""
    requires was <= log && log != [] && log[|log| - 1].p == p && HostsAsked(was, excl)
    ensures HostsAsked(log, Blamed(excl, e, p))
    ensures |Allowed(providers, Blamed(excl, e, p))| < |Allowed(providers, excl)|
  {
    var before, after := Allowed(providers, excl), Allowed(providers, Blamed(excl, e, p));
    forall h | h in Blamed(excl, e, p).hosts
      ensures Asked(log, h)
    {
      if h in excl.hosts {
        var i :| 0 <= i < |was| && was[i].p.host == h;
        assert log[i] == was[i];
      } else {
        assert log[|log| - 1].p.host == h;
      }
    }
    assert p in before && p !in after && after <= before;
    FewerLeft(after, before, p);
  }

  lemma FewerLeft(after: set<Provider>, before: set<Provider>, p: Provider)
    requires after <= before && p in before && p !in after
    ensures |after| < |before|
  {
    SubsetSize(after, before - {p});
  }

  lemma {:induction false} AllowedAtMost(providers: seq<Provider>, excl: Exclusions)
    ensures |Allowed(providers, excl)| <= |providers|
  {
    if providers != [] {
      var init, last := providers[..|providers| - 1], providers[|providers| - 1];
      AllowedAtMost(init, excl);
      assert providers == init + [last];
      SubsetSize(Allowed(providers, excl), Allowed(init, excl) + {last});
    }
  }

  /** With nobody unheard, everybody is accounted for once those still allowed have been asked. */
  lemma AllAccounted(providers: seq<Provider>, log: seq<Outcome>, excl: Exclusions)
    requires HostsAsked(log, excl)
    requires forall b :: b in excl.backbones <==> b != "" && BackboneAnswered(log, b)
    requires forall p :: p in providers ==> !Unheard(log, p)
    ensures
      (forall p :: p in providers ==> Accounted(log, p)) <==>
        forall p :: p in Allowed(providers, excl) ==> Asked(log, p.host)
  {
    forall p | p in providers
      ensures p in Allowed(providers, excl) ==> (Accounted(log, p) <==> Asked(log, p.host))
      ensures p !in Allowed(providers, excl) ==> Accounted(log, p)
    {
    }
  }

  /** Only a timeout can leave someone unheard. */
  lemma {:induction false} AllSaidNotFound(log: seq<Outcome>, host: string)
    requires forall i :: 0 <= i < |log| ==> log[i].e == NotFound
    ensures Latest(log, host) != Some(Timeout)
  {
    if log != [] {
      AllSaidNotFound(log[..|log| - 1], host);
    }
  }

  /** What is excluded once e, the answer of p, ends the turn. */
  function Blamed(excl: Exclusions, e: Err, p: Provider): Exclusions {
    if Verdict(Some(e)) then excl.ExcludeForArticle(p) else excl.ExcludeHost(p.host)
  }

  /** Everyone who gave a verdict is excluded, by backbone if it has one, else by host. */
  ghost predicate Spared(log: seq<Outcome>, excl: Exclusions) {
    forall i :: 0 <= i < |log| && Verdict(Some(log[i].e)) ==>
      && (log[i].p.backbone != "" ==> log[i].p.backbone in excl.backbones)
      && (log[i].p.backbone == "" && log[i].p.host != "" ==> log[i].p.host in excl.hosts)
  }

  /** Would asking q repeat what was asked of p? */
  predicate Again(p: Provider, q: Provider) {
    if p.backbone != "" then q.backbone == p.backbone else p.host != "" && q.host == p.host
  }

  /** Nobody is asked about an article that it, or its backbone, has already answered for. */
  ghost predicate NoRepeat(log: seq<Outcome>) {
    forall i, j :: 0 <= i < j < |log| && Verdict(Some(log[i].e)) ==> !Again(log[i].p, log[j].p)
  }

  lemma AskedNext(log: seq<Outcome>, excl: Exclusions, o: Outcome)
    requires NoRepeat(log) && Spared(log, excl) && !excl.Excludes(o.p)
    ensures NoRepeat(log + [o]) && Spared(log + [o], Blamed(excl, o.e, o.p))
    ensures !Verdict(Some(o.e)) ==> Spared(log + [o], excl)
  {
    var all := log + [o];
    assert forall i :: 0 <= i < |log| ==> all[i] == log[i];
  }

  lemma NoBlame(log: seq<Outcome>, excl: Exclusions, e: Err, p: Provider)
    requires Spared(log, excl) && !Verdict(Some(e))
    ensures Spared(log, Blamed(excl, e, p))
  {
  }

  /** The first provider of a scan that is allowed, has a slot free and yields a connection. */
  function FirstOf(providers: seq<Provider>, probes: seq<Probe>, excl: Exclusions): Option<Provider> {
    if probes == [] then None
    else
      var init, last := probes[..|probes| - 1], probes[|probes| - 1];
      var earlier := FirstOf(providers, init, excl);
      if earlier.Some? then earlier
      else if last.i < |providers| && !excl.Excludes(providers[last.i]) && last.free && last.dial.None? then
        Some(providers[last.i])
      else None
  }

  lemma FirstNext(providers: seq<Provider>, probes: seq<Probe>, excl: Exclusions, k: nat)
    requires k < |probes| && FirstOf(providers, probes[..k], excl) == None
    ensures FirstOf(providers, probes[..k + 1], excl) ==
      var p := probes[k];
      if p.i < |providers| && !excl.Excludes(providers[p.i]) && p.free && p.dial.None? then Some(providers[p.i]) else None
  {
    assert probes[..k + 1][..k] == probes[..k];
  }

  lemma {:induction false} FirstStays(providers: seq<Provider>, probes: seq<Probe>, excl: Exclusions, k: nat)
    requires k <= |probes| && FirstOf(providers, probes[..k], excl).Some?
    ensures FirstOf(providers, probes, excl) == FirstOf(providers, probes[..k], excl)
  {
    if k < |probes| {
      assert probes[..|probes| - 1][..k] == probes[..k];
      FirstStays(providers, probes[..|probes| - 1], excl, k);
    } else {
      assert probes[..k] == probes;
    }
  }

  /** What one attempt of the retry closure came to. */
  datatype AttemptResult = Ok | Retry(e: Err) | Stop(e: Err)

  /** The pool slots taken, with one more for a connection held. */
  function Taken(base: map<string, nat>, conn: Option<Conn>): map<string, nat>
    requires conn.Some? ==> conn.value.provider.host in base
  {
    if conn.None? then base else base[conn.value.provider.host := base[conn.value.provider.host] + 1]
  }

  /** One call of ExecuteWithFailover: its captured variables and the world it runs in. */
  class Call {
    const providers: seq<Provider>
    const retries: int
    const scans: nat -> seq<Probe>
    const races: nat -> Offer
    const answers: nat -> Answer
    const cancelled: nat -> bool
    const shut: nat -> bool          // whether the client has been closed
    const full: nat -> bool          // whether the pool's stack of idle connections is at its cap
    var now: nat                     // how often the world has been consulted
    var slots: map<string, nat>      // per host, the pool slots taken
    var idle: seq<Conn>              // what this call put on the pools' stacks
    var conn: Option<Conn>           // currentConn
    var current: Provider            // currentProvider
    var errProvider: Provider
    var pending: Option<Err>         // pendingErr
    var exclusions: Exclusions
    var unanswered: set<string>
    var notFound: bool
    var outcomes: seq<Outcome>
    ghost var history: seq<Outcome>  // every error a provider really gave, in order
    ghost var passedOver: bool       // a try got no connection while someone was still allowed

    constructor (providers: seq<Provider>, retries: int, scans: nat -> seq<Probe>, races: nat -> Offer,
                 answers: nat -> Answer, cancelled: nat -> bool, shut: nat -> bool, full: nat -> bool,
                 slots: map<string, nat>)
      ensures this.providers == providers && this.retries == retries && this.scans == scans && this.races == races
      ensures this.answers == answers && this.cancelled == cancelled && this.slots == slots && now == 0 && Idle()
    {
      this.providers := providers;
      this.retries := retries;
      this.scans := scans;
      this.races := races;
      this.answers := answers;
      this.cancelled := cancelled;
      this.shut := shut;
      this.full := full;
      this.slots := slots;
      now := 0;
      idle := [];
      conn := None;
      current := Provider("", "", false);
      errProvider := Provider("", "", false);
      pending := None;
      exclusions := Exclusions({}, {});
      unanswered := {};
      notFound := false;
      outcomes := [];
      history := [];
      passedOver := false;
    }

    /** Nothing of a call has happened yet. */
    ghost predicate Idle()
      reads this`idle, this`conn, this`pending, this`exclusions, this`unanswered, this`notFound, this`outcomes
      reads this`history, this`passedOver
    {
      && idle == [] && conn == None && pending == None && exclusions == Exclusions({}, {})
      && unanswered == {} && !notFound && outcomes == [] && history == [] && !passedOver
    }

    /** Every provider's pool exists; a held connection belongs to the current provider and owns one slot. */
    ghost predicate Slotted(base: map<string, nat>)
      reads this`conn, this`current, this`slots
    {
      && (forall p :: p in providers ==> p.host in base)
      && (conn.Some? ==> conn.value.provider == current && current in providers)
      && (conn.Some? ==> conn.value.provider.host in base)
      && slots == Taken(base, conn)
    }

    /** The log is what was really answered, but for a first error still to be handled. */
    ghost predicate Logged()
      reads this`conn, this`pending, this`outcomes, this`history
    {
      && (pending.Some? ==> conn.Some?)
      && history == outcomes + if pending.Some? then [Outcome(conn.value.provider, pending.value)] else []
    }

    /** What the closure's variables say about the answers so far. */
    ghost predicate Recorded()
      reads this`unanswered, this`notFound, this`outcomes
    {
      && (forall h :: h in unanswered <==> Latest(outcomes, h) == Some(Timeout))
      && (notFound <==> Said(outcomes, NotFound))
    }

    /** The excluded backbones are those a provider on them answered for. */
    ghost predicate Excluded()
      reads this`exclusions, this`outcomes
    {
      forall b :: b in exclusions.backbones <==> b != "" && BackboneAnswered(outcomes, b)
    }

    /** Whoever is asked has the article missing, and the caller does not give up. */
    ghost predicate AllMissing() {
      forall t: nat :: answers(t).err == Some(NotFound) && !cancelled(t)
    }

    /** Acquiring a connection never fails while some provider is still allowed. */
    ghost predicate Served() {
      forall t: nat, excl :: Allowed(providers, excl) != {} ==> Choice(t, excl).Some?
    }

    /** No provider has an empty host, which excludeHost would ignore. */
    predicate Named() {
      forall p :: p in providers ==> p.host != ""
    }

    /** Some acquisition could come to p. */
    ghost predicate Reachable(p: Provider) {
      exists t: nat, excl :: Choice(t, excl) == Some(p)
    }

    /** pp.slots <- struct{}{} */
    method TakeSlot(p: Provider, ghost base: map<string, nat>)
      requires p.host in base && slots == base
      modifies this`slots
      ensures slots == Taken(base, Some(Conn(p, false)))
    {
      slots := slots[p.host := slots[p.host] + 1];
    }

    /** <-pp.slots on the pool found under host, which must be the one the slot was taken from. */
    method FreeSlot(p: Provider, host: string, ghost base: map<string, nat>)
      requires p.host in base && host == p.host && slots == Taken(base, Some(Conn(p, false)))
      modifies this`slots
      ensures slots == base
    {
      slots := slots[host := slots[host] - 1];
      assert slots == base;
    }

    /** Whose connection an acquisition made at time t comes to: the scan's first, else the race's. */
    function Choice(t: nat, excl: Exclusions): Option<Provider> {
      var scanned := FirstOf(providers, scans(t), excl);
      if scanned.Some? then scanned
      else match races(t)
        case Offer(i) => if i < |providers| && !excl.Excludes(providers[i]) then Some(providers[i]) else None
        case NoOffer(_) => None
    }

    /** Nobody has been asked again after a verdict, and nobody held is about to be. */
    ghost predicate Careful()
      reads this`history, this`exclusions, this`conn, this`pending
    {
      && NoRepeat(history)
      && (conn.Some? ==> !exclusions.Excludes(conn.value.provider))
      && (conn.Some? && pending.Some? ==> Spared(history, Blamed(exclusions, pending.value, conn.value.provider)))
      && (!Verdict(pending) ==> Spared(history, exclusions))
    }

    /**
     getAnyAvailableConnection: some provider the exclusions allow, with one slot
     taken, or an error with none: a slot taken for a failed dial is given back.
     */
    method GetAny(excl: Exclusions, ghost base: map<string, nat>) returns (got: bool, p: Provider, e: Err)
      requires Slotted(base) && conn == None
      modifies this`now, this`slots
      ensures Choice(old(now), excl) == if got then Some(p) else None
      ensures got ==> p in providers && !excl.Excludes(p) && slots == Taken(base, Some(Conn(p, false)))
      ensures !got ==> slots == base && e != NotFound && e != Corrupt
      ensures now == old(now) + 1
    {
      var probes, race := scans(now), races(now);
      now := now + 1;
      got, p, e := false, Provider("", "", false), Plain;
      assert FirstOf(providers, probes[..0], excl) == None;
      hide FirstOf, Taken;
      for k := 0 to |probes|
        invariant now == old(now) + 1 && slots == base && FirstOf(providers, probes[..k], excl) == None
      {
        FirstNext(providers, probes, excl, k);
        var probe := probes[k];
        if probe.i < |providers| && !excl.Excludes(providers[probe.i]) && probe.free {
          p := providers[probe.i];
          TakeSlot(p, base);
          if probe.dial.None? {
            FirstStays(providers, probes, excl, k + 1);
            return true, p, Plain;
          }
          FreeSlot(p, p.host, base);
        }
      }
      assert probes[..|probes|] == probes;
      match race {
        case Offer(i) =>
          if i < |providers| && !excl.Excludes(providers[i]) {
            got, p := true, providers[i];
            TakeSlot(p, base);
          }
        case NoOffer(d) =>
          e := ToErr(d);
      }
    }

    /** release: the connection is closed and its slot freed in the pool of its own address. */
    method Release(ghost base: map<string, nat>)
      requires Slotted(base) && conn.Some?
      modifies this`slots, this`conn
      ensures Slotted(base) && conn == None
    {
      FreeSlot(conn.value.provider, conn.value.provider.host, base);
      conn := None;
    }

    /**
     put: a connection is kept for reuse only if it is open, the client is, and the
     stack has room; on each way out its slot is freed, exactly once.
     */
    method Put(ghost base: map<string, nat>)
      requires Slotted(base) && conn.Some?
      modifies this`now, this`slots, this`conn, this`idle
      ensures Slotted(base) && conn == None
      ensures var c := old(conn.value);
        idle == old(idle) + if c.closed || shut(old(now)) || full(old(now)) then [] else [c]
    {
      var c := conn.value;
      conn := None;
      now := now + 1;
      if c.closed {
        FreeSlot(c.provider, current.host, base);
        return;
      }
      if shut(now - 1) {
        FreeSlot(c.provider, current.host, base);
        return;
      }
      if full(now - 1) {
        FreeSlot(c.provider, current.host, base);
        return;
      }
      idle := idle + [c];
      FreeSlot(c.provider, current.host, base);
    }

    /** returnOrReleaseConn: nothing to do without a connection; a closed one is released, an open one put back. */
    method GiveBack(ghost base: map<string, nat>)
      requires Slotted(base)
      modifies this`now, this`slots, this`conn, this`idle
      ensures Slotted(base) && conn == None
      ensures forall c :: c in idle ==> c in old(idle) || !c.closed
    {
      if conn.None? {
        return;
      }
      if conn.value.closed {
        Release(base);
      } else {
        Put(base);
      }
    }

    /** safeExecute: the operation may end any way, and may leave the connection closed. */
    method SafeExecute(ghost base: map<string, nat>) returns (err: Option<Err>)
      requires Slotted(base) && conn.Some? && Careful() && pending == None
      modifies this`now, this`conn, this`history
      ensures Slotted(base) && conn.Some? && conn.value.provider == old(conn.value.provider)
      ensures NoRepeat(history) && (!Verdict(err) ==> Spared(history, exclusions))
      ensures err.Some? ==> Spared(history, Blamed(exclusions, err.value, conn.value.provider))
      ensures history == old(history) + if err.Some? then [Outcome(conn.value.provider, err.value)] else []
      ensures err == answers(old(now)).err
    {
      var a := answers(now);
      now := now + 1;
      conn := Some(conn.value.(closed := conn.value.closed || a.closes));
      err := a.err;
      if err.Some? {
        AskedNext(history, exclusions, Outcome(conn.value.provider, err.value));
        history := history + [Outcome(conn.value.provider, err.value)];
      }
    }

    /** noteOutcome and note: what the answer says is recorded before anything else happens. */
    method Note(p: Provider, e: Err)
      requires Recorded()
      modifies this`unanswered, this`notFound, this`outcomes
      ensures Recorded() && outcomes == old(outcomes) + [Outcome(p, e)]
    {
      SaidStays(outcomes, Outcome(p, e));
      ghost var was := outcomes;
      if Typed(e) {
        if e == NotFound {
          notFound := true;
        }
        if e == Timeout {
          unanswered := unanswered + {p.host};
        } else {
          unanswered := unanswered - {p.host};
        }
      }
      outcomes := outcomes + [Outcome(p, e)];
      assert outcomes[..|outcomes| - 1] == was;
      hide Said, BackboneAnswered;
    }

    /** getAnyAvailableConnection, the connection becoming the current one. */
    method Connect(ghost base: map<string, nat>) returns (got: bool, dialErr: Err)
      requires Slotted(base) && Careful() && pending == None && conn == None
      modifies this`now, this`slots, this`conn, this`current, this`errProvider
      ensures Slotted(base) && Careful() && got == conn.Some? && Choice(old(now), exclusions).Some? == got
      ensures got ==> Choice(old(now), exclusions).value == current == errProvider == conn.value.provider
      ensures dialErr != NotFound && dialErr != Corrupt
    {
      var p;
      got, p, dialErr := GetAny(exclusions, base);
      if got {
        conn, current, errProvider, dialErr := Some(Conn(p, false)), p, p, Plain;
      }
    }

    /** After a retriable error: another provider if one is to be had, else the same one again. */
    method Reconnect(ghost base: map<string, nat>) returns (got: bool, dialErr: Err)
      requires Slotted(base) && conn.Some?
      modifies this`now, this`slots, this`conn, this`current
      ensures Slotted(base) && got == conn.Some? && (got ==> !exclusions.Excludes(current))
      ensures
        var other := Choice(old(now), exclusions.ExcludeHost(old(current).host));
        var choice := if other.Some? then other else Choice(old(now) + 1, exclusions);
        got == choice.Some? && (got ==> current == choice.value)
      ensures dialErr != NotFound && dialErr != Corrupt
    {
      var failed := current;
      Release(base);
      var p;
      got, p, dialErr := GetAny(exclusions.ExcludeHost(failed.host), base);
      if !got {
        got, p, dialErr := GetAny(exclusions, base);
      }
      if got {
        conn, current, dialErr := Some(Conn(p, false)), p, Plain;
      }
    }

    /** How far a call of the closure, or of retry.Do, moved the log of answers on. */
    ghost predicate Heard(was: seq<Outcome>, verdict: Option<Err>)
      reads this`outcomes, this`errProvider, this`exclusions
    {
      && (forall b :: BackboneAnswered(outcomes, b) <==>
          BackboneAnswered(was, b) || (Verdict(verdict) && b == errProvider.backbone))
      && (verdict == Some(NotFound) ==> Said(outcomes, NotFound))
      && (verdict == None || Corrupted(outcomes) == (verdict == Some(Corrupt)))
      && (verdict.Some? ==> outcomes != [] && outcomes[|outcomes| - 1].p == errProvider)
      && (verdict.Some? ==> errProvider in providers && !exclusions.Excludes(errProvider))
      && was <= outcomes
    }

    /** The first half of the closure: the error to handle, recorded under the provider that gave it. */
    method Take(ghost base: map<string, nat>) returns (execErr: Option<Err>)
      requires Slotted(base) && Recorded() && Logged() && Careful() && conn.Some?
      modifies this`now, this`conn, this`errProvider, this`pending
      modifies this`unanswered, this`notFound, this`outcomes, this`history
      ensures Slotted(base) && Recorded() && conn.Some? && pending == None && history == outcomes
      ensures conn.value.provider == old(conn.value.provider)
      ensures execErr == None ==> outcomes == old(outcomes)
      ensures old(pending).Some? ==> execErr == old(pending)
      ensures execErr.Some? ==> outcomes == old(outcomes) + [Outcome(old(conn).value.provider, execErr.value)]
      ensures execErr.Some? ==> Heard(old(outcomes), execErr) && |outcomes| == |old(outcomes)| + 1
      ensures NoRepeat(history) && (!Verdict(execErr) ==> Spared(history, exclusions))
      ensures execErr.Some? ==> Spared(history, Blamed(exclusions, execErr.value, errProvider))
    {
      assert conn.value.provider == current && current in providers;
      hide Recorded, Slotted, BackboneAnswered, Said, NoRepeat, Spared, Blamed;
      execErr := pending;
      if pending.Some? {
        pending := None;
      } else {
        execErr := SafeExecute(base);
      }
      if execErr.Some? {
        errProvider := current;
        SaidStays(outcomes, Outcome(current, execErr.value));
        Note(current, execErr.value);
      }
    }

    lemma HeldIsCurrent(base: map<string, nat>)
      requires Slotted(base)
      ensures conn.Some? ==> conn.value.provider == current
    {
    }

    /** The closure handed to retry.Do. */
    method Attempt(ghost base: map<string, nat>) returns (r: AttemptResult)
      requires Slotted(base) && Recorded() && Logged() && Careful() && conn.Some?
      modifies this`now, this`slots, this`conn, this`current, this`errProvider, this`pending
      modifies this`unanswered, this`notFound, this`outcomes, this`history
      ensures Slotted(base) && Recorded() && pending == None && history == outcomes && NoRepeat(history)
      ensures r == Ok ==> conn.Some? && outcomes == old(outcomes)
      ensures r.Retry? ==> conn.Some? && Retriable(r.e) && Careful()
      ensures r != Ok ==> Heard(old(outcomes), Some(r.e)) && Spared(history, Blamed(exclusions, r.e, errProvider))
      ensures |outcomes| <= |old(outcomes)| + 1 && old(outcomes) <= outcomes
      ensures old(pending) == Some(NotFound) ==>
        r == Stop(NotFound) && outcomes == old(outcomes) + [Outcome(old(conn).value.provider, NotFound)]
    {
      hide Recorded, Slotted, BackboneAnswered, Said, NoRepeat, Spared, Blamed, Choice;
      var execErr := Take(base);
      if execErr.None? {
        return Ok;
      }
      var e := execErr.value;
      if Retriable(e) {
        var got, dialErr := Reconnect(base);
        assert conn.Some? ==> conn.value.provider == current by { HeldIsCurrent(base); }
        NoBlame(history, exclusions, dialErr, errProvider);
        NoBlame(history, exclusions, e, errProvider);
        return if got then Retry(e) else Stop(dialErr);
      }
      if e == Corrupt || e == Panic {
        Release(base);
      }
      r := Stop(e);
    }

    /** retry.Attempts(retries + 1), at least one. */
    function Attempts(): (n: nat)
      ensures n >= 1
    {
      if retries + 1 <= 0 then 1 else retries + 1
    }

    /** Attempts() for each of n providers. */
    function Limit(n: nat): nat {
      if n == 0 then 0 else Limit(n - 1) + Attempts()
    }

    lemma {:induction false} LimitGrows(n: nat, m: nat)
      requires n <= m
      ensures Limit(n) <= Limit(m)
    {
      if n < m {
        LimitGrows(n, m - 1);
      }
    }

    /**
     retry.Do with the given number of attempts: stops at the first success or
     unrecoverable error, when the attempts run out, or when the context ends.
     */
    method RetryDo(ghost base: map<string, nat>) returns (r: Option<Err>)
      requires Slotted(base) && Recorded() && Logged() && Careful() && conn.Some?
      modifies this`now, this`slots, this`conn, this`current, this`errProvider, this`pending
      modifies this`unanswered, this`notFound, this`outcomes, this`history
      ensures Slotted(base) && Recorded() && NoRepeat(history)
      ensures r != Some(Plain) ==> pending == None && history == outcomes
      ensures r == None ==> conn.Some?
      ensures r != Some(Plain) ==> Heard(old(outcomes), r)
      ensures r.Some? && r != Some(Plain) ==> Spared(history, Blamed(exclusions, r.value, errProvider))
      ensures |outcomes| <= |old(outcomes)| + Attempts() && |history| <= |old(outcomes)| + Attempts()
      ensures AllMissing() && old(pending) == Some(NotFound) ==>
        r == Some(NotFound) && outcomes == old(outcomes) + [Outcome(old(conn).value.provider, NotFound)]
    {
      hide Recorded, Slotted, BackboneAnswered, Said, NoRepeat, Spared, Blamed, AllMissing;
      var attempts := Attempts();
      var attempt := 1;
      while true
        invariant Slotted(base) && Recorded() && Logged() && Careful() && conn.Some?
        invariant 1 <= attempt <= attempts && |outcomes| < |old(outcomes)| + attempt
        invariant forall b :: BackboneAnswered(outcomes, b) <==> BackboneAnswered(old(outcomes), b)
        invariant old(outcomes) <= outcomes
        invariant attempt == 1 ==> outcomes == old(outcomes) && pending == old(pending) && conn == old(conn)
        invariant attempt > 1 ==> old(pending) != Some(NotFound)
        decreases attempts - attempt
      {
        if cancelled(now) {
          NotMissing(now);
          now := now + 1;
          return Some(Plain);
        }
        var a := Attempt(base);
        match a {
          case Ok => return None;
          case Stop(e) => return Some(e);
          case Retry(e) =>
            if attempt == attempts {
              return Some(e);
            }
            if cancelled(now) {
              NotMissing(now);
              now := now + 1;
              return Some(Plain);
            }
        }
        attempt := attempt + 1;
      }
    }

    /** The operation on the connection in hand, then its retries if it fails. */
    method Ask(ghost base: map<string, nat>) returns (failure: Option<Err>)
      requires Slotted(base) && Recorded() && Careful() && conn.Some? && pending == None && history == outcomes
      modifies this`now, this`slots, this`conn, this`current, this`errProvider, this`pending
      modifies this`unanswered, this`notFound, this`outcomes, this`history
      ensures Slotted(base) && Recorded() && NoRepeat(history) && |history| <= |old(outcomes)| + Attempts()
      ensures failure.Some? && failure != Some(Plain) ==> pending == None && history == outcomes && Heard(old(outcomes), failure)
      ensures failure.Some? && failure != Some(Plain) ==> Spared(history, Blamed(exclusions, failure.value, errProvider))
      ensures AllMissing() ==>
        failure == Some(NotFound) && outcomes == old(outcomes) + [Outcome(old(conn).value.provider, NotFound)]
    {
      hide Recorded, Slotted, BackboneAnswered, Said, NoRepeat, Spared, Blamed, Attempts;
      pending := SafeExecute(base);
      failure := pending;
      if failure.Some? {
        failure := RetryDo(base);
      }
    }

    /** The loop's body with a connection in hand: the operation, its retries, and who is not to be asked again. */
    method TryOne(ghost base: map<string, nat>) returns (failure: Option<Err>)
      requires Slotted(base) && Recorded() && Excluded() && Careful() && conn.Some? && pending == None && history == outcomes
      modifies this`now, this`slots, this`idle, this`conn, this`current, this`errProvider, this`pending
      modifies this`unanswered, this`notFound, this`outcomes, this`exclusions, this`history
      ensures Slotted(base) && Recorded() && conn == None
      ensures failure.Some? && !Final(failure.value) ==> Excluded() && Corrupted(outcomes) == (failure == Some(Corrupt))
      ensures failure == Some(NotFound) ==> Said(outcomes, NotFound)
      ensures failure.Some? && !Final(failure.value) ==> pending == None && history == outcomes && Careful()
      ensures failure.Some? && !Final(failure.value) ==>
        outcomes != [] && exclusions == Blamed(old(exclusions), failure.value, outcomes[|outcomes| - 1].p)
      ensures failure.Some? && !Final(failure.value) ==>
        var p := outcomes[|outcomes| - 1].p;
        p in providers && !old(exclusions).Excludes(p) && old(outcomes) <= outcomes
      ensures AllMissing() ==>
        failure == Some(NotFound) && outcomes == old(outcomes) + [Outcome(old(conn).value.provider, NotFound)]
      ensures forall c :: c in idle ==> c in old(idle) || !c.closed
      ensures NoRepeat(history) && |history| <= |old(history)| + Attempts()
    {
      hide Recorded, Slotted, BackboneAnswered, Said, NoRepeat, Spared, Blamed, Attempts;
      failure := Ask(base);
      GiveBack(base);
      if failure.None? || Final(failure.value) {
        return;
      }
      ExcludeAfter(failure.value, old(outcomes));
    }

    /** Who is not to be asked again: for an answer about the article the backbone, else the host alone. */
    method ExcludeAfter(e: Err, ghost was: seq<Outcome>)
      requires forall b :: b in exclusions.backbones <==> b != "" && BackboneAnswered(was, b)
      requires forall b :: BackboneAnswered(outcomes, b) <==>
        BackboneAnswered(was, b) || (Verdict(Some(e)) && b == errProvider.backbone)
      modifies this`exclusions
      ensures Excluded() && exclusions == Blamed(old(exclusions), e, errProvider)
    {
      hide BackboneAnswered;
      if Verdict(Some(e)) {
        exclusions := exclusions.ExcludeForArticle(errProvider);
      } else {
        exclusions := exclusions.ExcludeHost(errProvider.host);
      }
    }

    /** After the loop: what a call with no early return reports. */
    method Conclude(lastErr: Option<Err>) returns (e: Err)
      requires Recorded() && Excluded() && (lastErr == Some(Corrupt) <==> Corrupted(outcomes))
      ensures Said(outcomes, NotFound) ==> e == Verdicts(providers, outcomes)
      ensures !Said(outcomes, NotFound) ==> e == if lastErr.Some? then lastErr.value else Plain
    {
      if notFound {
        for i := 0 to |providers|
          invariant forall k :: 0 <= k < i ==> !Unheard(outcomes, providers[k])
        {
          var p := providers[i];
          if p.host in unanswered && !exclusions.ExcludesBackbone(p) {
            assert Unheard(outcomes, p);
            return Timeout;
          }
        }
        return if lastErr == Some(Corrupt) then Corrupt else NotFound;
      }
      e := if lastErr.Some? then lastErr.value else Plain;
    }

    /**
     How far the loop is after so many tries, whatever the world: only hosts that gave
     an error are excluded, and while no try passed anyone over, fewer are left to ask
     each time; if every answer is missing, the log has nothing else, and begins with
     the first try.
     */
    ghost predicate Going(log: seq<Outcome>, excl: Exclusions, tries: nat, start: bool, passed: bool) {
      && (Named() ==> HostsAsked(log, excl))
      && (!passed && Named() ==> |Allowed(providers, excl)| <= |providers| - tries)
      && (Served() ==> !passed)
      && (AllMissing() ==> forall i :: 0 <= i < |log| ==> log[i].e == NotFound && Reachable(log[i].p))
      && (tries > 0 && AllMissing() && start ==> log != [])
    }

    lemma SetsOut(start: bool)
      ensures Going([], Exclusions({}, {}), 0, start, false)
    {
      AllowedAtMost(providers, Exclusions({}, {}));
    }

    /** A try that gets no connection found nobody to ask, or passed someone over. */
    lemma GoesNowhere(log: seq<Outcome>, excl: Exclusions, tries: nat, start: bool, passed: bool, t: nat)
      requires Going(log, excl, tries, start, passed) && tries < |providers| && Choice(t, excl) == None
      requires tries == 0 ==> !start
      ensures Going(log, excl, tries + 1, start, passed || Allowed(providers, excl) != {})
    {
      hide Choice, Reachable, AllMissing, HostsAsked;
    }

    lemma GoesOn(log: seq<Outcome>, excl: Exclusions, tries: nat, start: bool, passed: bool, t: nat, log': seq<Outcome>,
                 e: Err)
      requires Going(log, excl, tries, start, passed) && log <= log' && log' != []
      requires var p := log'[|log'| - 1].p; p in providers && !excl.Excludes(p)
      requires AllMissing() ==> exists p :: Choice(t, excl) == Some(p) && log' == log + [Outcome(p, NotFound)]
      ensures Going(log', Blamed(excl, e, log'[|log'| - 1].p), tries + 1, start, passed)
    {
      hide AllMissing, Choice, Blamed, HostsAsked, Allowed, Served;
      if Named() {
        BlamedOneMore(providers, log', log, excl, e, log'[|log'| - 1].p);
      }
      if AllMissing() {
        var p :| Choice(t, excl) == Some(p) && log' == log + [Outcome(p, NotFound)];
        Reached(t, excl, p);
      }
      hide Reachable;
    }

    /**
     ExecuteWithFailover. Whatever the providers do, every slot taken is back when
     it returns, and a not-found needs a 430 and nobody unheard. It accounts for every
     provider there is exactly when each one still allowed at the end has been asked,
     and if no try passed anyone over, nobody is still allowed.
     */
    method Execute() returns (r: Option<Err>)
      requires forall p :: p in providers ==> p.host in slots
      requires Idle()
      modifies this
      ensures slots == old(slots) && forall c :: c in idle ==> !c.closed
      ensures r == Some(NotFound) ==>
        Said(history, NotFound) && !Corrupted(history) && forall p :: p in providers ==> !Unheard(history, p)
      ensures r == Some(NotFound) && Named() ==>
        ((forall p :: p in providers ==> Accounted(history, p)) <==>
          forall p :: p in Allowed(providers, exclusions) ==> Asked(history, p.host))
      ensures r == Some(NotFound) && Named() && !passedOver ==>
        Allowed(providers, exclusions) == {} && forall p :: p in providers ==> Accounted(history, p)
      ensures Served() ==> !passedOver
      ensures r.Some? && !Final(r.value) && Said(history, NotFound) ==> r.value == Verdicts(providers, history)
      ensures NoRepeat(history) && |history| <= Limit(|providers|)
      ensures AllMissing() && history != [] ==> r == Some(NotFound)
      ensures AllMissing() ==> forall i :: 0 <= i < |history| ==> Reachable(history[i].p)
      ensures AllMissing() && providers != [] && Choice(old(now), Exclusions({}, {})).Some? ==> history != []
    {
      ghost var base, start := slots, Choice(now, Exclusions({}, {})).Some?;
      SetsOut(start);
      Starts(base);
      hide Said, BackboneAnswered, Unheard, Slotted, Recorded, NoRepeat, Spared, Going, Reachable;
      hide Careful, Excluded, Accounted, AllMissing, Served, Named, Verdicts, Choice;
      var ended, result := AskAll(base, start);
      if ended {
        return result;
      }
      Backbones();
      var e := Conclude(result);
      Arrives(outcomes, exclusions, start, passedOver);
      return Some(e);
    }

    /** Where the loop is before a try, whatever the world has answered so far. */
    ghost predicate Trying(base: map<string, nat>, tries: nat, start: bool, lastErr: Option<Err>)
      reads this
    {
      && Slotted(base) && Recorded() && Excluded() && Careful() && conn == None && (forall c :: c in idle ==> !c.closed)
      && pending == None && history == outcomes && |history| <= Limit(tries)
      && (lastErr == Some(Corrupt) <==> Corrupted(outcomes))
      && (lastErr == Some(NotFound) ==> Said(outcomes, NotFound))
      && Going(outcomes, exclusions, tries, start, passedOver)
    }

    /** The loop over tries: either the call is over, or what is left is the last error. */
    method AskAll(ghost base: map<string, nat>, ghost start: bool) returns (ended: bool, result: Option<Err>)
      requires Slotted(base) && Recorded() && Excluded() && Careful() && Idle()
      requires Going(outcomes, exclusions, 0, start, passedOver) && start == Choice(now, Exclusions({}, {})).Some?
      modifies this
      ensures Slotted(base) && conn == None && (forall c :: c in idle ==> !c.closed)
      ensures NoRepeat(history) && |history| <= Limit(|providers|)
      ensures ended ==> (result == None || Final(result.value)) && !AllMissing() && (Served() ==> !passedOver)
      ensures !ended ==> Recorded() && Excluded() && history == outcomes && Going(outcomes, exclusions, |providers|, start, passedOver)
      ensures !ended ==> (result == Some(Corrupt) <==> Corrupted(outcomes))
      ensures !ended && result == Some(NotFound) ==> Said(outcomes, NotFound)
    {
      var lastErr: Option<Err> := None;
      assert Trying(base, 0, start, lastErr) by { SetsOutTrying(base, start); }
      hide Trying, Going, Choice;
      for tries := 0 to |providers|
        invariant Trying(base, tries, start, lastErr)
        invariant tries == 0 ==> now == old(now) && exclusions == Exclusions({}, {})
      {
        LimitGrows(tries + 1, |providers|);
        ended, lastErr := AskNext(base, start, tries, lastErr);
        if ended {
          return true, lastErr;
        }
      }
      Tried(base, start, lastErr);
      return false, lastErr;
    }

    lemma SetsOutTrying(base: map<string, nat>, start: bool)
      requires Slotted(base) && Recorded() && Excluded() && Careful() && Idle() && Going(outcomes, exclusions, 0, start, passedOver)
      ensures Trying(base, 0, start, None)
    {
      hide Slotted, Recorded, Excluded, Careful, Going;
    }

    lemma Tried(base: map<string, nat>, start: bool, lastErr: Option<Err>)
      requires Trying(base, |providers|, start, lastErr)
      ensures Slotted(base) && conn == None && (forall c :: c in idle ==> !c.closed)
      ensures NoRepeat(history) && |history| <= Limit(|providers|)
      ensures Recorded() && Excluded() && history == outcomes && Going(outcomes, exclusions, |providers|, start, passedOver)
      ensures lastErr == Some(Corrupt) <==> Corrupted(outcomes)
      ensures lastErr == Some(NotFound) ==> Said(outcomes, NotFound)
    {
      hide Slotted, Recorded, Excluded, NoRepeat, Going, Said;
    }

    /** One try. */
    method AskNext(ghost base: map<string, nat>, ghost start: bool, ghost tries: nat, lastErr: Option<Err>)
      returns (ended: bool, result: Option<Err>)
      requires Trying(base, tries, start, lastErr) && tries < |providers|
      requires tries == 0 ==> start == Choice(now, exclusions).Some?
      modifies this
      ensures !ended ==> Trying(base, tries + 1, start, result)
      ensures ended ==> Slotted(base) && conn == None && (forall c :: c in idle ==> !c.closed)
      ensures ended ==> NoRepeat(history) && |history| <= Limit(tries + 1)
      ensures ended ==> (result == None || Final(result.value)) && !AllMissing() && (Served() ==> !passedOver)
    {
      hide Said, BackboneAnswered, Slotted, Recorded, NoRepeat, Spared, Blamed, Choice, Going, Careful, Excluded, AllMissing;
      hide Served, Allowed;
      NeverTwice();
      Serves(outcomes, exclusions, tries, start, passedOver);
      if cancelled(now) {
        NotMissing(now);
        now := now + 1;
        return true, Some(Plain);
      }
      ghost var at, excl, log := now, exclusions, outcomes;
      var got, dialErr := Connect(base);
      if !got {
        GoesNowhere(outcomes, exclusions, tries, start, passedOver, at);
        passedOver := passedOver || Allowed(providers, exclusions) != {};
        return false, if lastErr == None then Some(dialErr) else lastErr;
      }
      result := TryOne(base);
      ended := result.None? || Final(result.value);
      if !ended {
        GoesOn(log, excl, tries, start, passedOver, at, outcomes, result.value);
      }
    }

    /** A world that serves passes nobody over. */
    lemma Serves(log: seq<Outcome>, excl: Exclusions, tries: nat, start: bool, passed: bool)
      requires Going(log, excl, tries, start, passed)
      ensures Served() ==> !passed
    {
    }

    lemma NeverTwice()
      requires Careful()
      ensures NoRepeat(history)
    {
    }

    /** Where the loop gets when it runs its course. */
    lemma Arrives(log: seq<Outcome>, excl: Exclusions, start: bool, passed: bool)
      requires Going(log, excl, |providers|, start, passed)
      requires forall b :: b in excl.backbones <==> b != "" && BackboneAnswered(log, b)
      ensures Named() && (forall p :: p in providers ==> !Unheard(log, p)) ==>
        ((forall p :: p in providers ==> Accounted(log, p)) <==>
          forall p :: p in Allowed(providers, excl) ==> Asked(log, p.host))
      ensures Named() && !passed ==> Allowed(providers, excl) == {}
      ensures Served() ==> !passed
      ensures AllMissing() && log != [] ==> Said(log, NotFound) && Verdicts(providers, log) == NotFound
      ensures AllMissing() ==> forall i :: 0 <= i < |log| ==> Reachable(log[i].p)
      ensures AllMissing() && providers != [] && start ==> log != []
    {
      hide Reachable, AllMissing, Served, HostsAsked;
      if AllMissing() && log != [] {
        MissingSaid(log);
      }
      if Named() && forall p :: p in providers ==> !Unheard(log, p) {
        AllAccounted(providers, log, excl);
      }
    }

    lemma Starts(base: map<string, nat>)
      requires Idle() && slots == base && forall p :: p in providers ==> p.host in slots
      ensures Careful() && Excluded() && Recorded() && Slotted(base)
    {
    }

    lemma Backbones()
      requires Excluded()
      ensures forall b :: b in exclusions.backbones <==> b != "" && BackboneAnswered(outcomes, b)
    {
    }

    lemma NotMissing(t: nat)
      requires cancelled(t)
      ensures !AllMissing()
    {
    }

    lemma Reached(t: nat, excl: Exclusions, p: Provider)
      requires Choice(t, excl) == Some(p)
      ensures Reachable(p)
    {
    }

    lemma MissingSaid(log: seq<Outcome>)
      requires log != [] && forall i :: 0 <= i < |log| ==> log[i].e == NotFound
      ensures Said(log, NotFound) && Verdicts(providers, log) == NotFound
    {
      forall p | p in providers
        ensures !Unheard(log, p)
      {
        AllSaidNotFound(log, p.host);
      }
      assert log[0].e == NotFound;
    }
  }

  /**
   Why the world must serve: the second provider is allowed all along but no
   acquisition ever comes to it, so the call reports a not-found it never asked about.
   */
  method NeverAsked() returns (call: Call, r: Option<Err>)
    ensures r == Some(NotFound) && call.Named() && !call.Served() && call.passedOver
    ensures exists p :: p in call.providers && !Asked(call.history, p.host) && !Accounted(call.history, p)
  {
    var a, b := Provider("a", "", false), Provider("b", "", false);
    var probe := Probe(0, true, None);
    call := new Call([a, b], 0, _ => [probe], _ => NoOffer(DialConnection), _ => Answer(Some(NotFound), false),
      _ => false, _ => false, _ => false, map["a" := 0, "b" := 0]);
    forall t: nat, excl
      ensures call.Choice(t, excl) == if excl.Excludes(a) then None else Some(a)
    {
      assert call.scans(t) == [probe] && call.races(t) == NoOffer(DialConnection);
      assert [probe][..0] == [] && FirstOf(call.providers, [], excl) == None;
    }
    var notA := Exclusions({"a"}, {});
    assert b in Allowed(call.providers, notA) && call.Choice(0, notA) == None;
    r := call.Execute();
    forall i | 0 <= i < |call.history|
      ensures call.history[i].p == a
    {
      assert call.Reachable(call.history[i].p);
    }
    assert b in call.providers && !Asked(call.history, b.host);
  }
}
