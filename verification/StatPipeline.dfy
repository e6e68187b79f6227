/**
 internal/nntp/conns.go: StatBatch, a window of pipelined STAT commands closed by a
 DATE, as sections 3.5, 6.2.4 and 7.1 of RFC 3977 allow; and the window loop of
 batchStatOnProvider in internal/nntp/client.go. Replies carry no tag, so which
 message id a reply is about is only a matter of counting lines.
 */
module StatPipeline {
  import opened Options
  import opened Providers
  import opened BatchStat

  /** A reply line; parses tells whether its text is a number followed by something. */
  datatype Line = Line(code: nat, parses: bool)

  /** parseStatResponse and classifyNNTPError: what a line means as the reply to a STAT. */
  function Parse(line: Line): Option<Answer> {
    if line.code == 223 then (if line.parses then Some(Hit) else None)
    else if line.code == 430 || line.code == 423 then Some(Miss)
    else None
  }

  const DATE := 111

  /** What happens on the wire during one window. */
  datatype Wire = Wire(wrote: bool, stream: seq<Line>, buffered: nat)

  /** The window's replies line up with its n commands. */
  predicate LinesUp(n: nat, wire: Wire) {
    n == 0 || (
      && wire.wrote
      && n < |wire.stream|
      && (forall i :: 0 <= i < n ==> Parse(wire.stream[i]).Some?)
      && wire.stream[n].code == DATE
      && wire.buffered == 0)
  }

  /** StatBatch: a window that does not line up fails as a whole. */
  method StatBatch(n: nat, wire: Wire, code: nat) returns (results: seq<Answer>, ok: bool)
    ensures |results| == n
    ensures ok <==> LinesUp(n, wire)
    ensures forall i :: 0 <= i < n ==> results[i] == if ok then Parse(wire.stream[i]).value else Bad(code)
  {
    results := seq(n, _ => Empty);
    if n == 0 {
      return results, true;
    }
    var failed := seq(n, _ => Bad(code));
    if !wire.wrote {
      return failed, false;
    }
    var read := 0;
    for i := 0 to n
      invariant read == i <= |wire.stream| && |results| == n
      invariant forall k :: 0 <= k < i ==> Parse(wire.stream[k]) == Some(results[k])
    {
      if read == |wire.stream| {
        return failed, false;
      }
      var line := wire.stream[read];
      read := read + 1;
      var reply := Parse(line);
      if reply.None? {
        return failed, false;
      }
      results := results[i := reply.value];
    }
    if read == |wire.stream| || wire.stream[read].code != DATE || wire.buffered > 0 {
      return failed, false;
    }
    ok := true;
  }

  // What a server or the network may do to a window's replies.

  /** An edit of the true reply stream: the next line gets through, is lost, or a stray line comes first. */
  datatype Edit = Keep | Drop | Insert(line: Line)

  function Consumed(script: seq<Edit>): nat {
    if script == [] then 0 else (if script[0].Insert? then 0 else 1) + Consumed(script[1..])
  }

  function Apply(script: seq<Edit>, lines: seq<Line>): seq<Line>
    requires Consumed(script) == |lines|
  {
    if script == [] then []
    else match script[0]
      case Keep => [lines[0]] + Apply(script[1..], lines[1..])
      case Drop => Apply(script[1..], lines[1..])
      case Insert(line) => [line] + Apply(script[1..], lines)
  }

  /** How many of the first n lines are lost. */
  function Dropped(script: seq<Edit>, n: nat): nat {
    if script == [] || n == 0 then 0
    else if script[0].Insert? then Dropped(script[1..], n)
    else (if script[0].Drop? then 1 else 0) + Dropped(script[1..], n - 1)
  }

  /** How many stray lines come before line n, or the end. */
  function Inserted(script: seq<Edit>, n: nat): nat {
    if script == [] then 0
    else if script[0].Insert? then 1 + Inserted(script[1..], n)
    else if n == 0 then 0
    else Inserted(script[1..], n - 1)
  }

  /** Stray lines are anything but a DATE reply. */
  ghost predicate NoStrayDate(script: seq<Edit>) {
    forall k :: 0 <= k < |script| && script[k].Insert? ==> script[k].line.code != DATE
  }

  ghost predicate FirstDate(got: seq<Line>, at: nat) {
    at < |got| && got[at].code == DATE && forall k :: 0 <= k < at ==> got[k].code != DATE
  }

  lemma FirstDateLater(line: Line, rest: seq<Line>, at: nat)
    requires FirstDate([line] + rest, at)
    ensures line.code == DATE ==> at == 0
    ensures line.code != DATE ==> at > 0 && FirstDate(rest, at - 1)
  {
    var got := [line] + rest;
    assert got[0] == line;
    assert forall k :: 0 <= k < |rest| ==> rest[k] == got[k + 1];
  }

  /** Where the DATE reply is found says by how many lines the stream has slipped. */
  lemma {:induction false} DateCounts(script: seq<Edit>, answers: seq<Line>, date: Line, at: nat)
    requires Consumed(script) == |answers| + 1 && NoStrayDate(script) && date.code == DATE
    requires forall k :: 0 <= k < |answers| ==> answers[k].code != DATE
    requires FirstDate(Apply(script, answers + [date]), at)
    ensures at + Dropped(script, |answers|) == |answers| + Inserted(script, |answers|)
    ensures Dropped(script, |answers|) == 0 && Inserted(script, |answers|) == 0 ==>
      Apply(script, answers + [date])[..at] == answers
  {
    var lines, rest := answers + [date], script[1..];
    assert forall k :: 0 <= k < |rest| ==> rest[k] == script[k + 1];
    if script[0].Insert? {
      FirstDateLater(script[0].line, Apply(rest, lines), at);
      DateCounts(rest, answers, date, at - 1);
    } else if answers == [] {
      assert lines[0] == date && lines[1..] == [];
      if script[0].Keep? {
        FirstDateLater(date, Apply(rest, []), at);
      } else {
        assert Apply(script, lines) == Apply(rest, []);
        OnlyStrays(rest, at);
        assert false;
      }
    } else {
      var tail := answers[1..];
      assert lines[0] == answers[0] && lines[1..] == tail + [date];
      if script[0].Keep? {
        FirstDateLater(answers[0], Apply(rest, lines[1..]), at);
        DateCounts(rest, tail, date, at - 1);
        KeptFirst(answers[0], Apply(rest, lines[1..]), tail, at);
      } else {
        DateCounts(rest, tail, date, at);
      }
    }
  }

  lemma KeptFirst(line: Line, got: seq<Line>, tail: seq<Line>, at: nat)
    requires 0 < at <= |got| + 1
    ensures got[..at - 1] == tail ==> ([line] + got)[..at] == [line] + tail
  {
    assert ([line] + got)[..at] == [line] + got[..at - 1];
  }

  lemma {:induction false} OnlyStrays(script: seq<Edit>, at: nat)
    requires Consumed(script) == 0 && NoStrayDate(script)
    ensures !FirstDate(Apply(script, []), at)
  {
    if script != [] && FirstDate(Apply(script, []), at) {
      assert forall k :: 0 <= k < |script[1..]| ==> script[1..][k] == script[k + 1];
      FirstDateLater(script[0].line, Apply(script[1..], []), at);
      OnlyStrays(script[1..], at - 1);
    }
  }

  /**
   A window that lines up has lost as many replies as it has strays among them; so if
   lines were only lost, or only added, every answer is the one given for its own id.
   */
  lemma WindowTold(script: seq<Edit>, answers: seq<Line>, date: Line, wire: Wire)
    requires answers != [] && Consumed(script) == |answers| + 1 && NoStrayDate(script) && date.code == DATE
    requires forall k :: 0 <= k < |answers| ==> answers[k].code != DATE
    requires wire.stream == Apply(script, answers + [date]) && LinesUp(|answers|, wire)
    ensures Dropped(script, |answers|) == Inserted(script, |answers|)
    ensures Dropped(script, |answers|) == 0 || Inserted(script, |answers|) == 0 ==>
      wire.stream[..|answers|] == answers
  {
    var n := |answers|;
    forall k | 0 <= k < n
      ensures wire.stream[k].code != DATE
    {
      assert Parse(wire.stream[k]).Some?;
    }
    DateCounts(script, answers, date, n);
  }

  // Which scripts a lined-up window can be deceived by.

  ghost predicate AllReplies(lines: seq<Line>) {
    forall k :: 0 <= k < |lines| ==> Parse(lines[k]).Some?
  }

  /** The DATE reply gets through, and every stray before it reads as a STAT reply. */
  predicate DateGetsThrough(script: seq<Edit>, n: nat) {
    script != [] &&
      if script[0].Insert? then Parse(script[0].line).Some? && DateGetsThrough(script[1..], n)
      else if n == 0 then script[0].Keep?
      else DateGetsThrough(script[1..], n - 1)
  }

  /** Reading STAT replies comes to the DATE reply at this line. */
  ghost predicate ReadsTo(got: seq<Line>, at: int) {
    0 <= at < |got| && got[at].code == DATE && forall k :: 0 <= k < at ==> Parse(got[k]).Some?
  }

  lemma ReadsToLater(line: Line, rest: seq<Line>, at: int)
    requires line.code != DATE
    ensures ReadsTo([line] + rest, at) <==> Parse(line).Some? && ReadsTo(rest, at - 1)
  {
    var got := [line] + rest;
    assert got[0] == line;
    assert forall k :: 0 <= k < |rest| ==> rest[k] == got[k + 1];
  }

  /** A script of strays alone brings no DATE. */
  lemma StraysReadNowhere(script: seq<Edit>, at: int)
    requires Consumed(script) == 0 && NoStrayDate(script)
    ensures !ReadsTo(Apply(script, []), at)
  {
    var got := Apply(script, []);
    if ReadsTo(got, at) {
      assert FirstDate(got, at);
      OnlyStrays(script, at);
      assert false;
    }
  }

  /** Where a script of edits takes the DATE reply, if it can be read up to at all. */
  lemma {:induction false} ReadsToIff(script: seq<Edit>, answers: seq<Line>, date: Line, at: int)
    requires Consumed(script) == |answers| + 1 && NoStrayDate(script) && date.code == DATE && AllReplies(answers)
    ensures ReadsTo(Apply(script, answers + [date]), at) <==>
      DateGetsThrough(script, |answers|) && at == |answers| + Inserted(script, |answers|) - Dropped(script, |answers|)
  {
    hide ReadsTo;
    var lines, rest := answers + [date], script[1..];
    assert forall k :: 0 <= k < |rest| ==> rest[k] == script[k + 1];
    if script[0].Insert? {
      ReadsToLater(script[0].line, Apply(rest, lines), at);
      ReadsToIff(rest, answers, date, at - 1);
    } else if answers == [] {
      assert lines[0] == date && lines[1..] == [];
      if script[0].Keep? {
        DateFirst(date, Apply(rest, []), at);
      } else {
        StraysReadNowhere(rest, at);
      }
    } else {
      var tail := answers[1..];
      assert lines[0] == answers[0] && lines[1..] == tail + [date];
      assert Parse(answers[0]).Some?;
      if script[0].Keep? {
        ReadsToLater(answers[0], Apply(rest, lines[1..]), at);
        ReadsToIff(rest, tail, date, at - 1);
      } else {
        ReadsToIff(rest, tail, date, at);
      }
    }
  }

  lemma DateFirst(date: Line, rest: seq<Line>, at: int)
    requires date.code == DATE
    ensures ReadsTo([date] + rest, at) <==> at == 0
  {
    var got := [date] + rest;
    assert got[0] == date;
  }

  /** The window's n commands were answered so, and the edited replies are what was read. */
  ghost predicate Brought(script: seq<Edit>, n: nat, answers: seq<Line>, wire: Wire) {
    && |answers| == n && Consumed(script) == n + 1 && AllReplies(answers)
    && wire.stream == Apply(script, answers + [Line(DATE, true)])
  }

  /** Exactly when a fully read window lines up: losses and strays balance and all read as replies. */
  lemma LinesUpIff(script: seq<Edit>, n: nat, answers: seq<Line>, wire: Wire)
    requires n > 0 && NoStrayDate(script) && Brought(script, n, answers, wire) && wire.wrote && wire.buffered == 0
    ensures LinesUp(n, wire) <==> DateGetsThrough(script, n) && Dropped(script, n) == Inserted(script, n)
  {
    ReadsToIff(script, answers, Line(DATE, true), n);
    hide Apply, Consumed, Dropped, Inserted, DateGetsThrough;
  }

  /** A STAT reply other than this line. */
  function OtherThan(line: Line): (r: Line)
    ensures r != line && Parse(r).Some?
  {
    if line.code == 223 then Line(430, false) else Line(223, true)
  }

  /** Answers that a script with a loss does not bring through unchanged. */
  lemma {:induction false} LossShows(script: seq<Edit>, n: nat) returns (answers: seq<Line>)
    requires Consumed(script) == n + 1 && Dropped(script, n) > 0
    ensures |answers| == n && AllReplies(answers)
    ensures !(answers <= Apply(script, answers + [Line(DATE, true)]))
  {
    var date, rest := Line(DATE, true), script[1..];
    var others := seq(n - 1, _ => Line(223, true));
    match script[0] {
      case Keep =>
        var tail := LossShows(rest, n - 1);
        answers := [Line(223, true)] + tail;
        var lines := answers + [date];
        assert lines[0] == answers[0] && lines[1..] == tail + [date];
        var got := Apply(script, lines);
        assert got[1..] == Apply(rest, tail + [date]);
        assert answers[1..] == tail;
        if n <= |got| {
          assert got[..n][1..] == got[1..][..n - 1];
        }
      case Insert(line) =>
        answers := [OtherThan(line)] + others;
        assert Apply(script, answers + [date])[0] == line != answers[0];
      case Drop =>
        var got := Apply(rest, others + [date]);
        var first := if got == [] then Line(223, true) else OtherThan(got[0]);
        answers := [first] + others;
        assert (answers + [date])[1..] == others + [date];
        assert answers[0] == first;
    }
  }

  /**
   Of the windows that line up under a script of edits, all tell the truth if and only
   if the script lost no reply or lets no window line up: every script that lets the
   DATE through, whose strays read as replies, and that lost as many as it added can
   give an id the answer of another.
   */
  lemma WindowTruthfulIff(script: seq<Edit>, n: nat)
    requires n > 0 && Consumed(script) == n + 1 && NoStrayDate(script)
    ensures
      (forall answers, wire :: Brought(script, n, answers, wire) && LinesUp(n, wire) ==> wire.stream[..n] == answers)
      <==> Dropped(script, n) == 0 || !(DateGetsThrough(script, n) && Dropped(script, n) == Inserted(script, n))
  {
    var date := Line(DATE, true);
    if Dropped(script, n) == 0 || !(DateGetsThrough(script, n) && Dropped(script, n) == Inserted(script, n)) {
      forall answers, wire | Brought(script, n, answers, wire) && LinesUp(n, wire)
        ensures wire.stream[..n] == answers
      {
        LinesUpIff(script, n, answers, wire);
        WindowTold(script, answers, date, wire);
      }
    } else {
      var answers := LossShows(script, n);
      var wire := Wire(true, Apply(script, answers + [date]), 0);
      assert Brought(script, n, answers, wire);
      LinesUpIff(script, n, answers, wire);
      assert wire.stream[..n] <= wire.stream;
    }
  }

  /** One line lost and one stray added go unnoticed, and a present article reads as missing. */
  lemma LostAndAddedDeceives() returns (script: seq<Edit>, answers: seq<Line>, wire: Wire)
    ensures Consumed(script) == |answers| + 1 && NoStrayDate(script)
    ensures wire.stream == Apply(script, answers + [Line(DATE, true)]) && LinesUp(|answers|, wire)
    ensures DateGetsThrough(script, |answers|) && Dropped(script, |answers|) == Inserted(script, |answers|) == 1
    ensures |answers| == 1 && Parse(answers[0]) == Some(Hit) && Parse(wire.stream[0]) == Some(Miss)
  {
    answers := [Line(223, true)];
    script := [Insert(Line(430, false)), Drop, Keep];
    wire := Wire(true, [Line(430, false), Line(DATE, true)], 0);
    assert script[1..] == [Drop, Keep] && script[1..][1..] == [Keep];
    var lines := answers + [Line(DATE, true)];
    assert lines[1..] == [Line(DATE, true)];
    assert Apply([Keep], lines[1..]) == [Line(DATE, true)];
    assert Apply([Drop, Keep], lines) == Apply([Keep], lines[1..]);
  }

  // batchStatOnProvider.

  const DEPTH := 16

  /** What the window starting at an offset meets: the context, the checkout, the wire. */
  datatype Window = Window(cancelled: bool, checkout: Option<nat>, wire: Wire, code: nat)

  function Least(a: nat, b: nat): nat {
    if a <= b then a else b
  }

  /** results[k] is settled by line k of the window that asked about it, which lined up. */
  ghost predicate ByItsOwnLine(a: Answer, k: nat, total: nat, windows: nat -> Window) {
    var start := k - k % DEPTH;
    var wire := windows(start).wire;
    var size := Least(start + DEPTH, total) - start;
    k < total && LinesUp(size, wire) && Some(a) == Parse(wire.stream[k - start])
  }

  /** The window starting there gets a connection and lines up. */
  ghost predicate WindowGood(start: nat, total: nat, windows: nat -> Window)
    requires start < total
  {
    var w := windows(start);
    !w.cancelled && w.checkout == None && LinesUp(Least(start + DEPTH, total) - start, w.wire)
  }

  /** So does every window up to the one that asks about id k. */
  ghost predicate WindowsGood(k: nat, total: nat, windows: nat -> Window) {
    forall start: nat :: start <= k && start < total && start % DEPTH == 0 ==> WindowGood(start, total, windows)
  }

  /** Every answer that is not an error comes from its own line. */
  ghost predicate ReadFrom(reply: Reply, total: nat, windows: nat -> Window) {
    forall k :: 0 <= k < |reply.answers| ==>
      reply.answers[k].Bad? || ByItsOwnLine(reply.answers[k], k, total, windows)
  }

  /** A window that fails settles nothing of its own and undoes nothing of those before it. */
  method BatchStatOnProvider(total: nat, windows: nat -> Window) returns (reply: Reply)
    ensures |reply.answers| <= total
    ensures reply.err == None ==> |reply.answers| == total
    ensures ReadFrom(reply, total, windows)
    ensures reply.err == None ==> forall k :: 0 <= k < total ==> !reply.answers[k].Bad?
    ensures forall k :: 0 <= k < total && WindowsGood(k, total, windows) ==>
      k < |reply.answers| && !reply.answers[k].Bad?
  {
    var results: seq<Answer> := [];
    var start := 0;
    while start < total
      invariant start % DEPTH == 0
      invariant |results| == Least(start, total)
      invariant forall k :: 0 <= k < |results| ==> !results[k].Bad? && ByItsOwnLine(results[k], k, total, windows)
      decreases total - start
    {
      var w := windows(start);
      ghost var fine := WindowGood(start, total, windows);
      assert !fine ==> forall k :: start <= k < total ==> !WindowsGood(k, total, windows);
      if w.cancelled {
        return Reply(results, Some(w.code));
      }
      var end := Least(start + DEPTH, total);
      if w.checkout.Some? {
        return Reply(results, Some(w.checkout.value));
      }
      var window, ok := StatBatch(end - start, w.wire, w.code);
      if !ok {
        // A window cut short by the context carries the context's error instead.
        return Reply(results + window, Some(w.code));
      }
      ghost var all := results + window;
      forall k | start <= k < |all|
        ensures !all[k].Bad? && ByItsOwnLine(all[k], k, total, windows)
      {
        assert k - k % DEPTH == start;
      }
      results := results + window;
      start := start + DEPTH;
    }
    reply := Reply(results, None);
  }

  // From the wire to the verdict.

  /** What a server would say about an id, if asked about it alone. */
  type Server = string -> Line

  function Lines(ids: seq<string>, server: Server): (r: seq<Line>) {
    seq(|ids|, k requires 0 <= k < |ids| => server(ids[k]))
  }

  /** The stream is the true one with lines lost, or with stray lines added, but not both before the DATE. */
  ghost predicate OneWay(wire: Wire, answers: seq<Line>, script: seq<Edit>) {
    && Consumed(script) == |answers| + 1 && NoStrayDate(script)
    && wire.stream == Apply(script, answers + [Line(DATE, true)])
    && (Dropped(script, |answers|) == 0 || Inserted(script, |answers|) == 0)
  }

  ghost predicate LostOrAdded(wire: Wire, answers: seq<Line>) {
    exists script :: OneWay(wire, answers, script)
  }

  ghost predicate OneWayAll(chunk: seq<string>, server: Server, windows: nat -> Window) {
    forall start: nat :: start < |chunk| && start % DEPTH == 0 ==>
      LostOrAdded(windows(start).wire, Lines(chunk[start..Least(start + DEPTH, |chunk|)], server))
  }

  /** Every definite answer is the server's own answer for that very id. */
  ghost predicate Honest(reply: Reply, chunk: seq<string>, server: Server) {
    forall k :: 0 <= k < |reply.answers| && k < |chunk| && (reply.answers[k].Hit? || reply.answers[k].Miss?) ==>
      Parse(server(chunk[k])) == Some(reply.answers[k])
  }

  lemma PipelineIsHonest(reply: Reply, chunk: seq<string>, server: Server, windows: nat -> Window)
    requires forall id :: server(id).code != DATE
    requires OneWayAll(chunk, server, windows) && ReadFrom(reply, |chunk|, windows)
    ensures Honest(reply, chunk, server)
  {
    forall k | 0 <= k < |reply.answers| && k < |chunk| && (reply.answers[k].Hit? || reply.answers[k].Miss?)
      ensures Parse(server(chunk[k])) == Some(reply.answers[k])
    {
      var start := k - k % DEPTH;
      assert ByItsOwnLine(reply.answers[k], k, |chunk|, windows);
      var ids := chunk[start..Least(start + DEPTH, |chunk|)];
      assert |ids| == Least(start + DEPTH, |chunk|) - start && ids[k - start] == chunk[k];
      LineIsOwn(windows(start).wire, ids, server, k - start);
    }
  }

  lemma LineIsOwn(wire: Wire, ids: seq<string>, server: Server, k: nat)
    requires k < |ids| && LinesUp(|ids|, wire) && LostOrAdded(wire, Lines(ids, server))
    requires forall id :: server(id).code != DATE
    ensures wire.stream[k] == server(ids[k])
  {
    var answers := Lines(ids, server);
    var script :| OneWay(wire, answers, script);
    WindowTold(script, answers, Line(DATE, true), wire);
    assert wire.stream[..|answers|][k] == answers[k];
  }

  /** What meets the windows of the t-th visit's request about some ids. */
  type Wires = (nat, Provider, seq<string>) -> nat -> Window

  /**
   From the wire to the verdict: when every reply is read by batchStatOnProvider off
   windows whose lines were only lost or only added, an id is reported missing only if
   each provider that was not skipped truly lacks it, or shares its host or backbone
   with one that truly does.
   */
  lemma MissingIsTrue(ids: seq<string>, visits: seq<Visit>, skip: set<string>, i: nat, p: Provider,
                      ask: (nat, Provider, seq<string>) -> Reply, wires: Wires, servers: Provider -> Server)
    requires AllRight(visits, ids, skip, ask) && i < |ids| && Vouched(visits, i, p)
    requires forall q, id :: servers(q)(id).code != DATE
    requires forall t: nat, q, chunk :: ReadFrom(ask(t, q, chunk), |chunk|, wires(t, q, chunk))
    requires forall t: nat, q, chunk :: OneWayAll(chunk, servers(q), wires(t, q, chunk))
    ensures exists q :: Covers(q, p) && Parse(servers(q)(ids[i])) == Some(Miss)
  {
    var t :| 0 <= t < |visits| && Told(visits[t], i, Miss) && Covers(visits[t].p, p);
    var v := visits[t];
    assert Genuine(ids, v, t, ask);
    var k := Position(v.asked, i).value;
    var chunk := IdsOf(ids, v.asked);
    assert v.reply.answers[k] == Miss && chunk[k] == ids[i];
    PipelineIsHonest(ask(t, v.p, chunk), chunk, servers(v.p), wires(t, v.p, chunk));
  }
}
