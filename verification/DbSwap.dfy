/**
 pkg/backup/dbrestore.go: staging a database restore, and swapping it in at the next
 start (pkg/manager/manager.go). Each disk operation may succeed, fail, or be where
 the process dies.
 */
module DbSwap {

  import opened Options

  /** A folder's database: whole, or whatever an interrupted import or removal left. */
  datatype Db = Whole(id: nat, restored: bool) | Partial

  /** db, db.restore-<ts> and db.before-restore-<ts>. */
  datatype Name = Live | Staged(ts: nat) | Before(ts: nat)

  /** The pending marker; id is the database its stage was verified to hold. */
  datatype Marker = Names(ts: nat, id: nat) | Broken

  datatype Fate = Go | Fail | Crash

  /** Whether a call returned nil, returned an error, or never returned. */
  datatype Result = Nil | Err | Dead

  /**
   The data folder; and, for speaking about the past, the ids given out (made), those
   that were ever live (been), and those whose hold the user released.
   */
  datatype Folder = Folder(
    dbs: map<Name, Db>, marker: Option<Marker>, hold: bool,
    made: nat, been: set<nat>, released: set<nat>)

  /** How each disk operation of one start fares; undo is the rename back. */
  datatype Luck = Luck(read: Fate, discard: Fate, hold: Fate, aside: Fate, place: Fate, undo: Fate, unhold: Fate, finish: Fate)

  // What every step keeps.

  predicate IsStage(n: Name) {
    n.Staged?
  }

  /** id is in folder n. */
  predicate In(d: Folder, n: Name, id: nat) {
    n in d.dbs && d.dbs[n].Whole? && d.dbs[n].id == id
  }

  /** Every database is in one folder only. */
  ghost predicate Single(d: Folder) {
    forall n, m, id :: In(d, n, id) && In(d, m, id) ==> n == m
  }

  /** A database that was ever live is still whole, as the live one or moved aside. */
  ghost predicate NoneLost(d: Folder) {
    forall id :: id in d.been ==> exists n :: !IsStage(n) && In(d, n, id)
  }

  ghost predicate Counted(d: Folder) {
    && (forall n :: n in d.dbs && d.dbs[n].Whole? ==> d.dbs[n].id < d.made)
    && (forall id :: id in d.been ==> id < d.made)
  }

  /** What no step breaks, whatever fails. */
  ghost predicate Homed(d: Folder) {
    Single(d) && NoneLost(d) && Counted(d)
  }

  /** Outside the stages there is nothing but databases that were live. */
  predicate NothingElse(d: Folder) {
    forall n :: n in d.dbs && !IsStage(n) ==> d.dbs[n].Whole? && d.dbs[n].id in d.been
  }

  /** The marker names a verified stage, or one whose database has been swapped in since. */
  predicate MarkerTrue(d: Folder) {
    d.marker.Some? && d.marker.value.Names? ==>
      var m := d.marker.value;
      if Staged(m.ts) in d.dbs then d.dbs[Staged(m.ts)] == Whole(m.id, true) else m.id in d.been
  }

  ghost predicate Sound(d: Folder) {
    Homed(d) && NothingElse(d) && MarkerTrue(d)
  }

  /** A restored database is live and its hold was never released. */
  predicate OnHold(d: Folder) {
    Live in d.dbs && d.dbs[Live].Whole? && d.dbs[Live].restored && d.dbs[Live].id !in d.released
  }

  predicate Held(d: Folder) {
    OnHold(d) ==> d.hold
  }

  /** The next start will try to swap. */
  predicate Swappable(d: Folder) {
    d.marker.Some? && d.marker.value.Names? && Staged(d.marker.value.ts) in d.dbs
  }

  // The steps, as functions of the folder.

  /** os.Rename of a folder: it fails when the target is there. */
  function Moved(d: Folder, src: Name, dst: Name): Folder
    requires src in d.dbs
  {
    d.(dbs := (d.dbs - {src})[dst := d.dbs[src]])
  }

  function Unheld(d: Folder, luck: Luck): Folder {
    if luck.unhold == Go then d.(hold := false) else d
  }

  /** The stage becomes the live database. */
  function Placed(d: Folder, ts: nat): Folder
    requires Staged(ts) in d.dbs
  {
    var d' := Moved(d, Staged(ts), Live);
    if d.dbs[Staged(ts)].Whole? then d'.(been := d'.been + {d.dbs[Staged(ts)].id}) else d'
  }

  /** From the second rename on. */
  function Finished(d: Folder, ts: nat, aside: Option<Name>, luck: Luck): Folder
    requires Staged(ts) in d.dbs && Live !in d.dbs && (aside.Some? ==> aside.value in d.dbs)
  {
    match luck.place
    case Crash => d
    case Go => if luck.finish == Go then Placed(d, ts).(marker := None) else Placed(d, ts)
    case Fail =>
      if aside.Some? && luck.undo == Go then Unheld(Moved(d, aside.value, Live), luck)
      else if aside.Some? && luck.undo == Crash then d
      else Unheld(d, luck)
  }

  /** What one call of ApplyPendingRestore leaves, at second now. */
  function Applied(d: Folder, now: nat, luck: Luck): Folder {
    if d.marker.None? || luck.read != Go then d
    else if !Swappable(d) then (if luck.discard == Go then d.(marker := None) else d)
    else if luck.hold != Go then d
    else
      var d' := d.(hold := true);
      var ts := d.marker.value.ts;
      if Live !in d.dbs then Finished(d', ts, None, luck)
      else if luck.aside == Crash then d'
      else if luck.aside == Fail || Before(now) in d.dbs then Unheld(d', luck)
      else Finished(Moved(d', Live, Before(now)), ts, Some(Before(now)), luck)
  }

  /** ApplyPendingRestore's own result. */
  function Outcome(d: Folder, now: nat, luck: Luck): Result {
    if d.marker.None? then Nil
    else if luck.read != Go then Ended(luck.read)
    else if !Swappable(d) then (if luck.discard == Crash then Dead else Err)
    else if luck.hold != Go then Ended(luck.hold)
    else if Live in d.dbs && luck.aside != Go then (if luck.aside == Crash || luck.unhold == Crash then Dead else Err)
    else if Live in d.dbs && Before(now) in d.dbs then (if luck.unhold == Crash then Dead else Err)
    else if luck.place == Go then Ended(luck.finish)
    else if luck.place == Crash || (Live in d.dbs && luck.undo == Crash) || luck.unhold == Crash then Dead
    else Err
  }

  function Ended(f: Fate): Result {
    match f case Go => Nil case Fail => Err case Crash => Dead
  }

  /** storage.NewStorage makes an empty database when there is none. */
  function Opened(d: Folder): Folder {
    if Live in d.dbs then d
    else d.(dbs := d.dbs[Live := Whole(d.made, false)], been := d.been + {d.made}, made := d.made + 1)
  }

  /** One start of the program; an error from the swap stops it before storage opens. */
  function Started(d: Folder, now: nat, luck: Luck): Folder {
    if Outcome(d, now, luck) == Nil then Opened(Applied(d, now, luck)) else Applied(d, now, luck)
  }

  /** How far os.RemoveAll got, whether an error or a crash ended it. */
  datatype Removal = Gone | Part | Untouched

  /** os.RemoveAll of a stage. */
  function Cleaned(d: Folder, ts: nat, cleanup: Removal): Folder {
    if Staged(ts) !in d.dbs || cleanup == Untouched then d
    else if cleanup == Gone then d.(dbs := d.dbs - {Staged(ts)})
    else d.(dbs := d.dbs[Staged(ts) := Partial])
  }

  datatype Import = Verified | Mismatch | Died

  datatype StageLuck = StageLuck(mkdir: Fate, imported: Import, mark: Fate, cleanup: Removal)

  /** stageDB at second ts: the marker is written only once the import is verified. */
  function StageMade(d: Folder, ts: nat, luck: StageLuck): Folder {
    if d.marker.Some? || luck.mkdir == Crash then d
    else if luck.mkdir == Fail || Staged(ts) in d.dbs then Cleaned(d, ts, luck.cleanup)
    else if luck.imported == Died then d.(dbs := d.dbs[Staged(ts) := Partial])
    else if luck.imported == Mismatch then Cleaned(d.(dbs := d.dbs[Staged(ts) := Partial]), ts, luck.cleanup)
    else
      var d' := d.(dbs := d.dbs[Staged(ts) := Whole(d.made, true)], made := d.made + 1);
      match luck.mark
      case Go => d'.(marker := Some(Names(ts, d.made)))
      case Fail => Cleaned(d', ts, luck.cleanup)
      case Crash => d'
  }

  /** The user releases the hold: whatever is live from now on is trusted. */
  function Released(d: Folder, removed: bool): Folder {
    if !d.hold || !removed then d
    else
      var d' := d.(hold := false);
      if Live in d.dbs && d.dbs[Live].Whole? then d'.(released := d.released + {d.dbs[Live].id}) else d'
  }

  /** A restore from the command line that fails after staging takes its stage back. */
  function Unstaged(d: Folder, unmark: Fate, cleanup: Removal): Folder {
    if !Swappable(d) || unmark == Crash then d
    else Cleaned(if unmark == Go then d.(marker := None) else d, d.marker.value.ts, cleanup)
  }

  // Every step, wherever it is cut, keeps every database that was live.

  /** Markers, holds and releases move no database. */
  lemma SameIsHomed(d: Folder, d': Folder)
    requires Homed(d) && d'.dbs == d.dbs && d'.been == d.been && d'.made == d.made
    ensures Homed(d')
  {
    assert forall n, id :: In(d', n, id) <==> In(d, n, id);
    forall id | id in d'.been
      ensures exists n :: !IsStage(n) && In(d', n, id)
    {
      var n :| !IsStage(n) && In(d, n, id);
      assert In(d', n, id);
    }
  }

  lemma MovedIsHomed(d: Folder, src: Name, dst: Name)
    requires Homed(d) && src in d.dbs && dst !in d.dbs && !IsStage(src) && !IsStage(dst)
    ensures Homed(Moved(d, src, dst))
  {
    var d' := Moved(d, src, dst);
    forall id | id in d'.been
      ensures exists n :: !IsStage(n) && In(d', n, id)
    {
      var n :| !IsStage(n) && In(d, n, id);
      assert In(d', if n == src then dst else n, id);
    }
    forall n, m, id | In(d', n, id) && In(d', m, id)
      ensures n == m
    {
      assert In(d, if n == dst then src else n, id) && In(d, if m == dst then src else m, id);
    }
  }

  lemma PlacedIsHomed(d: Folder, ts: nat)
    requires Homed(d) && Live !in d.dbs && Staged(ts) in d.dbs
    ensures Homed(Placed(d, ts))
  {
    var d' := Placed(d, ts);
    forall id | id in d'.been
      ensures exists n :: !IsStage(n) && In(d', n, id)
    {
      if id in d.been {
        var n :| !IsStage(n) && In(d, n, id);
        assert In(d', n, id);
      } else {
        assert In(d', Live, id);
      }
    }
    forall n, m, id | In(d', n, id) && In(d', m, id)
      ensures n == m
    {
      assert In(d, if n == Live then Staged(ts) else n, id) && In(d, if m == Live then Staged(ts) else m, id);
    }
  }

  lemma FinishedIsHomed(d: Folder, ts: nat, aside: Option<Name>, luck: Luck)
    requires Homed(d) && Staged(ts) in d.dbs && Live !in d.dbs
    requires aside.Some? ==> aside.value.Before? && aside.value in d.dbs
    ensures Homed(Finished(d, ts, aside, luck))
  {
    PlacedIsHomed(d, ts);
    SameIsHomed(Placed(d, ts), Placed(d, ts).(marker := None));
    SameIsHomed(d, d.(hold := false));
    if aside.Some? {
      var back := Moved(d, aside.value, Live);
      MovedIsHomed(d, aside.value, Live);
      SameIsHomed(back, back.(hold := false));
    }
    hide Homed, Placed, Moved;
  }

  lemma AppliedIsHomed(d: Folder, now: nat, luck: Luck)
    requires Homed(d)
    ensures Homed(Applied(d, now, luck))
  {
    SameIsHomed(d, d.(marker := None));
    if Swappable(d) {
      var held, ts := d.(hold := true), d.marker.value.ts;
      SameIsHomed(d, held);
      SameIsHomed(held, held.(hold := false));
      if Live !in d.dbs {
        FinishedIsHomed(held, ts, None, luck);
      } else if Before(now) !in d.dbs {
        MovedIsHomed(held, Live, Before(now));
        FinishedIsHomed(Moved(held, Live, Before(now)), ts, Some(Before(now)), luck);
      }
    }
    hide Homed;
  }

  lemma CleanedIsHomed(d: Folder, ts: nat, cleanup: Removal)
    requires Homed(d)
    ensures Homed(Cleaned(d, ts, cleanup))
  {
    var d' := Cleaned(d, ts, cleanup);
    assert forall n, id :: n != Staged(ts) ==> (In(d', n, id) <==> In(d, n, id));
    assert forall id :: !In(d', Staged(ts), id) || d' == d;
    forall id | id in d'.been
      ensures exists n :: !IsStage(n) && In(d', n, id)
    {
      var n :| !IsStage(n) && In(d, n, id);
      assert In(d', n, id);
    }
  }

  /** A new folder for a stage, holding something nobody else has; and then removed again. */
  lemma FilledIsHomed(d: Folder, ts: nat, db: Db, made: nat, cleanup: Removal)
    requires Homed(d) && Staged(ts) !in d.dbs
    requires d.made <= made && (db.Whole? ==> d.made <= db.id < made)
    ensures var d' := d.(dbs := d.dbs[Staged(ts) := db], made := made);
      Homed(d') && Homed(Cleaned(d', ts, cleanup))
  {
    var d' := d.(dbs := d.dbs[Staged(ts) := db], made := made);
    assert forall n, id :: n != Staged(ts) ==> (In(d', n, id) <==> In(d, n, id));
    assert forall n, id: nat :: In(d, n, id) ==> id < d.made;
    forall id | id in d'.been
      ensures exists n :: !IsStage(n) && In(d', n, id)
    {
      var n :| !IsStage(n) && In(d, n, id);
      assert In(d', n, id);
    }
    CleanedIsHomed(d', ts, cleanup);
  }

  lemma StageMadeIsHomed(d: Folder, ts: nat, luck: StageLuck)
    requires Homed(d)
    ensures Homed(StageMade(d, ts, luck))
  {
    hide Homed, Cleaned;
    CleanedIsHomed(d, ts, luck.cleanup);
    if Staged(ts) !in d.dbs {
      var full := d.(dbs := d.dbs[Staged(ts) := Whole(d.made, true)], made := d.made + 1);
      FilledIsHomed(d, ts, Partial, d.made, luck.cleanup);
      FilledIsHomed(d, ts, Whole(d.made, true), d.made + 1, luck.cleanup);
      SameIsHomed(full, full.(marker := Some(Names(ts, d.made))));
      var part := d.(dbs := d.dbs[Staged(ts) := Partial]);
      assert part == part.(made := d.made);
    }
  }

  lemma OpenedIsHomed(d: Folder)
    requires Homed(d)
    ensures Homed(Opened(d))
  {
    if Live !in d.dbs {
      var d' := Opened(d);
      assert forall n, id :: n != Live ==> (In(d', n, id) <==> In(d, n, id));
      assert forall n, id: nat :: In(d, n, id) ==> id < d.made;
      forall id | id in d'.been
        ensures exists n :: !IsStage(n) && In(d', n, id)
      {
        if id in d.been {
          var n :| !IsStage(n) && In(d, n, id);
          assert In(d', n, id);
        } else {
          assert In(d', Live, id);
        }
      }
    }
  }

  // Every step but a taking back that half fails keeps the rest sound too.

  lemma FinishedStaysTrue(d: Folder, ts: nat, aside: Option<Name>, luck: Luck)
    requires NothingElse(d) && MarkerTrue(d) && Swappable(d) && ts == d.marker.value.ts && Live !in d.dbs
    requires aside.Some? ==> aside.value.Before? && aside.value in d.dbs
    ensures NothingElse(Finished(d, ts, aside, luck)) && MarkerTrue(Finished(d, ts, aside, luck))
  {
  }

  /** The swap, cut anywhere by a failure or a crash. */
  lemma AppliedIsSound(d: Folder, now: nat, luck: Luck)
    requires Sound(d)
    ensures Sound(Applied(d, now, luck))
  {
    AppliedIsHomed(d, now, luck);
    hide Homed;
    if Swappable(d) {
      var held, ts := d.(hold := true), d.marker.value.ts;
      if Live !in d.dbs {
        FinishedStaysTrue(held, ts, None, luck);
      } else {
        var moved := Moved(held, Live, Before(now));
        assert Before(now) !in d.dbs ==> NothingElse(moved) && MarkerTrue(moved);
        if Before(now) !in d.dbs {
          FinishedStaysTrue(moved, ts, Some(Before(now)), luck);
        }
      }
      hide Finished, Moved;
    }
  }

  lemma StagingIsSound(d: Folder, ts: nat, luck: StageLuck)
    requires Sound(d)
    ensures Sound(StageMade(d, ts, luck))
  {
    StageMadeIsHomed(d, ts, luck);
    hide Homed;
  }

  /**
   Taking a stage back is safe exactly when the marker's removal does not fail, whose
   error nothing looks at, or the stage is left as it was.
   */
  lemma UnstagingIsSound(d: Folder, unmark: Fate, cleanup: Removal)
    requires Sound(d)
    ensures Sound(Unstaged(d, unmark, cleanup)) <==> !Swappable(d) || unmark != Fail || cleanup == Untouched
  {
    if Swappable(d) {
      var m, unmarked := d.marker.value, d.(marker := None);
      if unmark == Go {
        SameIsHomed(d, unmarked);
        CleanedIsHomed(unmarked, m.ts, cleanup);
        hide Homed;
      } else if unmark == Fail && cleanup != Untouched {
        assert In(d, Staged(m.ts), m.id);
        assert m.id !in d.been;
        assert !MarkerTrue(Unstaged(d, unmark, cleanup));
      }
    }
  }

  /** And if the stage is then only partly removed, the next start makes the rest of it the live database. */
  lemma TakenBackGoesLive(d: Folder, now: nat)
    requires Sound(d) && Swappable(d) && Before(now) !in d.dbs
    ensures Started(Unstaged(d, Fail, Part), now, Luck(Go, Go, Go, Go, Go, Go, Go, Go)).dbs[Live] == Partial
  {
    hide Homed;
  }

  /** A swap that returns nil did everything: the restore is live and on hold, the old database aside, the marker gone. */
  lemma NilMeansSwapped(d: Folder, now: nat, luck: Luck)
    requires Sound(d) && Swappable(d) && Outcome(d, now, luck) == Nil
    ensures
      var t := Applied(d, now, luck);
      && t.dbs.Keys == (d.dbs.Keys - {Staged(d.marker.value.ts)}) + {Live} + (if Live in d.dbs then {Before(now)} else {})
      && t.dbs[Live] == Whole(d.marker.value.id, true) && t.hold && t.marker == None
      && (Live in d.dbs ==> t.dbs[Before(now)] == d.dbs[Live])
      && (forall n :: n in d.dbs && n != Live && n != Staged(d.marker.value.ts) ==> t.dbs[n] == d.dbs[n])
  {
  }

  /** A swap that returns an error left every database where it was, unless it was done or its undo failed. */
  lemma ErrMeansUndone(d: Folder, now: nat, luck: Luck)
    requires Sound(d) && Outcome(d, now, luck) == Err && luck.place != Go && luck.undo == Go
    ensures Applied(d, now, luck).dbs == d.dbs && (Swappable(d) ==> Applied(d, now, luck).marker == d.marker)
  {
    var t := Applied(d, now, luck).dbs;
    assert t.Keys == d.dbs.Keys;
    forall n | n in d.dbs
      ensures t[n] == d.dbs[n]
    {
    }
  }

  // Whole runs.

  datatype Event =
    | Stage(ts: nat, stageLuck: StageLuck)
    | Start(now: nat, luck: Luck)
    | Release(removed: bool)
    | Unstage(unmark: Fate, cleanup: Removal)

  function Next(d: Folder, e: Event): Folder {
    match e
    case Stage(ts, luck) => StageMade(d, ts, luck)
    case Start(now, luck) => Started(d, now, luck)
    case Release(removed) => Released(d, removed)
    case Unstage(unmark, cleanup) => Unstaged(d, unmark, cleanup)
  }

  function Ran(d: Folder, events: seq<Event>): Folder {
    if events == [] then d else Next(Ran(d, events[..|events| - 1]), events[|events| - 1])
  }

  /** A stage is taken back, wholly or in part, but its marker stays. */
  predicate Abandons(e: Event) {
    e.Unstage? && e.unmark == Fail && e.cleanup != Untouched
  }

  ghost predicate Ordinary(events: seq<Event>) {
    forall k :: 0 <= k < |events| ==> !Abandons(events[k])
  }

  lemma NextIsHomed(d: Folder, e: Event)
    requires Homed(d)
    ensures Homed(Next(d, e))
  {
    match e
    case Stage(ts, luck) => StageMadeIsHomed(d, ts, luck);
    case Start(now, luck) =>
      AppliedIsHomed(d, now, luck);
      OpenedIsHomed(Applied(d, now, luck));
      hide Homed;
    case Release(removed) => SameIsHomed(d, Released(d, removed));
    case Unstage(unmark, cleanup) =>
      if Swappable(d) {
        SameIsHomed(d, d.(marker := None));
        CleanedIsHomed(d, d.marker.value.ts, cleanup);
        CleanedIsHomed(d.(marker := None), d.marker.value.ts, cleanup);
      }
      hide Homed;
  }

  lemma NextIsSound(d: Folder, e: Event)
    requires Sound(d) && !Abandons(e)
    ensures Sound(Next(d, e))
  {
    NextIsHomed(d, e);
    hide Homed, Applied, Unstaged, StageMade;
    match e
    case Stage(ts, luck) => StagingIsSound(d, ts, luck);
    case Start(now, luck) => AppliedIsSound(d, now, luck);
    case Release(removed) =>
    case Unstage(unmark, cleanup) => UnstagingIsSound(d, unmark, cleanup);
  }

  lemma BeenGrows(d: Folder, e: Event)
    ensures d.been <= Next(d, e).been
  {
  }

  /** id sits in one folder, which is no stage. */
  ghost predicate Settled(d: Folder, id: nat) {
    exists n :: !IsStage(n) && In(d, n, id) && forall m :: In(d, m, id) ==> m == n
  }

  /**
   Over any run, whatever crashes and fails: every database that was ever live is whole
   and in exactly one folder, which is no stage.
   */
  lemma {:induction false} NothingIsLost(d: Folder, events: seq<Event>)
    requires Homed(d)
    ensures Homed(Ran(d, events)) && d.been <= Ran(d, events).been
    ensures forall id :: id in d.been ==> Settled(Ran(d, events), id)
  {
    if events != [] {
      var init := events[..|events| - 1];
      NothingIsLost(d, init);
      NextIsHomed(Ran(d, init), events[|events| - 1]);
      BeenGrows(Ran(d, init), events[|events| - 1]);
    }
    forall id | id in d.been
      ensures Settled(Ran(d, events), id)
    {
      var n :| !IsStage(n) && In(Ran(d, events), n, id);
    }
    hide Next;
  }

  /**
   And unless a stage is taken back without its marker, only databases that were live lie
   outside the stages, and a pending marker names a verified stage or one swapped in since.
   */
  lemma {:induction false} MarkersStayTrue(d: Folder, events: seq<Event>)
    requires Sound(d) && Ordinary(events)
    ensures Sound(Ran(d, events))
  {
    if events != [] {
      var init := events[..|events| - 1];
      assert forall k :: 0 <= k < |init| ==> init[k] == events[k];
      MarkersStayTrue(d, init);
      NextIsSound(Ran(d, init), events[|events| - 1]);
    }
    hide Next;
  }

  /** A staged restore is pending in its stage, or has been swapped in. */
  predicate Secured(d: Folder, id: nat) {
    || id in d.been
    || (d.marker.Some? && d.marker.value.Names? && d.marker.value.id == id && In(d, Staged(d.marker.value.ts), id))
  }

  lemma NextSecures(d: Folder, e: Event, id: nat)
    requires Sound(d) && Secured(d, id) && !e.Unstage?
    ensures Secured(Next(d, e), id)
  {
    BeenGrows(d, e);
  }

  /** Until it is taken back, a restore once staged stays staged or has become the live database. */
  lemma {:induction false} RestoreIsNeverLost(d: Folder, events: seq<Event>, id: nat)
    requires Sound(d) && Secured(d, id) && forall k :: 0 <= k < |events| ==> !events[k].Unstage?
    ensures Secured(Ran(d, events), id)
  {
    if events != [] {
      var init := events[..|events| - 1];
      assert forall k :: 0 <= k < |init| ==> init[k] == events[k];
      RestoreIsNeverLost(d, init, id);
      MarkersStayTrue(d, init);
      NextSecures(Ran(d, init), events[|events| - 1], id);
    }
    hide Next;
  }

  // The hold.

  /** A start at which a failing rename would take away the hold of the database that stays live. */
  predicate Exposed(d: Folder) {
    Swappable(d) && OnHold(d)
  }

  /**
   A restored database that is live has its hold until it is released, except that a
   second swap which fails takes it away. So whatever a start meets, the hold survives
   it exactly when no swap is pending over a database still on hold.
   */
  lemma HoldSurvivesIff(d: Folder)
    requires Sound(d) && Held(d)
    ensures (forall now: nat, luck :: Held(Applied(d, now, luck))) <==> !Exposed(d)
  {
    if Exposed(d) {
      var luck := Luck(Go, Go, Go, Fail, Go, Go, Go, Go);
      assert !Held(Applied(d, 0, luck));
    } else {
      forall now: nat, luck
        ensures Held(Applied(d, now, luck))
      {
        if Swappable(d) && Live in d.dbs {
          assert In(d, Live, d.dbs[Live].id);
        }
      }
    }
  }

  /**
   Such a state is reached by staging a second restore before the first is released, and
   one failed rename at the next start then takes the hold of the first away.
   */
  lemma ExposedIsReached(d: Folder, ts: nat, now: nat, again: nat, later: nat)
    requires Sound(d) && d.marker == None && Live in d.dbs && d.made !in d.released
    requires Staged(ts) !in d.dbs && Before(now) !in d.dbs && Staged(again) !in d.dbs
    ensures
      var well := StageLuck(Go, Verified, Go, Gone);
      var events := [Stage(ts, well), Start(now, Luck(Go, Go, Go, Go, Go, Go, Go, Go)), Stage(again, well)];
      var z := Ran(d, events);
      && Ordinary(events) && Held(z) && Exposed(z)
      && !Held(Next(z, Start(later, Luck(Go, Go, Go, Fail, Go, Go, Go, Go))))
  {
    var well := StageLuck(Go, Verified, Go, Gone);
    var start := Start(now, Luck(Go, Go, Go, Go, Go, Go, Go, Go));
    RanOn(d, [], Stage(ts, well));
    RanOn(d, [Stage(ts, well)], start);
    RanOn(d, [Stage(ts, well), start], Stage(again, well));
    assert [] + [Stage(ts, well)] == [Stage(ts, well)] && [Stage(ts, well)] + [start] == [Stage(ts, well), start];
    assert [Stage(ts, well), start] + [Stage(again, well)] == [Stage(ts, well), start, Stage(again, well)];
    GoesLive(d, ts, now);
    hide Sound, Ran, Started;
    var z := Next(Next(Next(d, Stage(ts, well)), start), Stage(again, well));
    assert z.dbs[Live] == Whole(d.made, true) && z.hold && Swappable(z) && z.released == d.released;
    ExposedLosesHold(z, later);
  }

  /** Staging and starting, with nothing going wrong. */
  lemma GoesLive(d: Folder, ts: nat, now: nat)
    requires d.marker == None && Live in d.dbs && Staged(ts) !in d.dbs && Before(now) !in d.dbs
    ensures
      var z := Started(StageMade(d, ts, StageLuck(Go, Verified, Go, Gone)), now, Luck(Go, Go, Go, Go, Go, Go, Go, Go));
      && z.dbs.Keys == d.dbs.Keys + {Before(now)}
      && z.dbs[Live] == Whole(d.made, true) && z.hold && z.marker == None && z.released == d.released
  {
  }

  lemma ExposedLosesHold(z: Folder, now: nat)
    requires Exposed(z)
    ensures !Held(Started(z, now, Luck(Go, Go, Go, Fail, Go, Go, Go, Go)))
  {
  }

  lemma RanOn(d: Folder, events: seq<Event>, e: Event)
    ensures Ran(d, []) == d && Ran(d, events + [e]) == Next(Ran(d, events), e)
  {
    assert (events + [e])[..|events|] == events;
  }

  /** So the hold stays up over a whole run in which no start finds the folder exposed. */
  lemma {:induction false} HeldThroughout(d: Folder, events: seq<Event>)
    requires Sound(d) && Held(d) && Ordinary(events)
    requires forall k :: 0 <= k < |events| && events[k].Start? ==> !Exposed(Ran(d, events[..k]))
    ensures Held(Ran(d, events))
  {
    if events != [] {
      var n := |events| - 1;
      var init, e := events[..n], events[n];
      assert forall k :: 0 <= k < n ==> init[..k] == events[..k];
      assert forall k :: 0 <= k < n ==> init[k] == events[k];
      HeldThroughout(d, init);
      MarkersStayTrue(d, init);
      HeldNext(Ran(d, init), e);
    }
    hide Next, Held, Exposed;
  }

  lemma HeldNext(d: Folder, e: Event)
    requires Sound(d) && Held(d) && (e.Start? ==> !Exposed(d))
    ensures Held(Next(d, e))
  {
    if e.Start? {
      HoldSurvivesIff(d);
    }
    hide Sound;
  }

  // The code, one disk operation at a time.

  class DataFolder {
    var dbs: map<Name, Db>
    var marker: Option<Marker>
    var hold: bool
    var made: nat
    ghost var been: set<nat>
    ghost var released: set<nat>

    ghost function View(): Folder
      reads this
    {
      Folder(dbs, marker, hold, made, been, released)
    }

    /** os.Rename of one folder to another name. */
    method Rename(src: Name, dst: Name, fate: Fate) returns (r: Result)
      requires src in dbs
      modifies this`dbs
      ensures r == if fate == Crash then Dead else if fate == Fail || dst in old(dbs) then Err else Nil
      ensures dbs == if r == Nil then (old(dbs) - {src})[dst := old(dbs)[src]] else old(dbs)
    {
      if fate == Crash {
        return Dead;
      }
      if fate == Fail || dst in dbs {
        return Err;
      }
      var db := dbs[src];
      dbs := (dbs - {src})[dst := db];
      r := Nil;
    }

    method RemoveHold(fate: Fate) returns (dead: bool)
      modifies this`hold
      ensures dead == (fate == Crash) && hold == if fate == Go then false else old(hold)
    {
      if fate == Go {
        hold := false;
      }
      dead := fate == Crash;
    }

    /** ApplyPendingRestore at second now. */
    method ApplyPendingRestore(now: nat, luck: Luck) returns (r: Result)
      modifies this
      ensures View() == Applied(old(View()), now, luck)
      ensures r == Outcome(old(View()), now, luck)
    {
      if marker.None? {
        return Nil;
      }
      if luck.read != Go {
        return if luck.read == Fail then Err else Dead;
      }
      if marker.value.Broken? || Staged(marker.value.ts) !in dbs {
        if luck.discard == Go {
          marker := None;
        }
        return if luck.discard == Crash then Dead else Err;
      }
      var ts := marker.value.ts;
      var aside := if Live in dbs then Some(Before(now)) else None;
      if luck.hold != Go {
        return if luck.hold == Fail then Err else Dead;
      }
      hold := true;
      if aside.Some? {
        r := Rename(Live, aside.value, luck.aside);
        if r == Dead {
          return;
        }
        if r == Err {
          var dead := RemoveHold(luck.unhold);
          return if dead then Dead else Err;
        }
      }
      ghost var staged := if dbs[Staged(ts)].Whole? then {dbs[Staged(ts)].id} else {};
      r := Rename(Staged(ts), Live, luck.place);
      if r == Dead {
        return;
      }
      if r == Err {
        if aside.Some? {
          var back := Rename(aside.value, Live, luck.undo);
          if back == Dead {
            return Dead;
          }
        }
        var dead := RemoveHold(luck.unhold);
        return if dead then Dead else Err;
      }
      been := been + staged;
      if luck.finish == Go {
        marker := None;
      }
      r := match luck.finish case Go => Nil case Fail => Err case Crash => Dead;
    }

    /** manager.New: nothing is opened unless the swap, if any, went through. */
    method Start(now: nat, luck: Luck) returns (r: Result)
      modifies this
      ensures View() == Started(old(View()), now, luck)
    {
      r := ApplyPendingRestore(now, luck);
      if r == Nil && Live !in dbs {
        OpenEmpty();
      }
    }

    method OpenEmpty()
      requires Live !in dbs
      modifies this
      ensures View() == Opened(old(View()))
    {
      dbs := dbs[Live := Whole(made, false)];
      been := been + {made};
      made := made + 1;
    }

    /** os.RemoveAll of a stage. */
    method RemoveStage(ts: nat, removal: Removal)
      modifies this`dbs
      ensures View() == Cleaned(old(View()), ts, removal)
    {
      if Staged(ts) in dbs && removal != Untouched {
        dbs := if removal == Gone then dbs - {Staged(ts)} else dbs[Staged(ts) := Partial];
      }
    }

    /** stageDB at second ts. */
    method StageDB(ts: nat, luck: StageLuck) returns (r: Result)
      modifies this
      ensures View() == StageMade(old(View()), ts, luck)
      ensures r == Nil <==>
        View().marker.Some? && old(View()).marker.None? && In(View(), Staged(ts), old(made))
    {
      if marker.Some? {
        return Err;
      }
      if luck.mkdir == Crash {
        return Dead;
      }
      if luck.mkdir == Fail || Staged(ts) in dbs {
        RemoveStage(ts, luck.cleanup);
        return Err;
      }
      dbs := dbs[Staged(ts) := Partial];
      if luck.imported == Died {
        return Dead;
      }
      if luck.imported == Mismatch {
        RemoveStage(ts, luck.cleanup);
        return Err;
      }
      dbs := dbs[Staged(ts) := Whole(made, true)];
      made := made + 1;
      if luck.mark == Crash {
        return Dead;
      }
      if luck.mark == Fail {
        RemoveStage(ts, luck.cleanup);
        return Err;
      }
      marker := Some(Names(ts, made - 1));
      r := Nil;
    }

    /** ReleasePostRestoreHold. */
    method Release(removed: bool)
      modifies this
      ensures View() == Released(old(View()), removed)
    {
      if hold && removed {
        hold := false;
        if Live in dbs && dbs[Live].Whole? {
          released := released + {dbs[Live].id};
        }
      }
    }
  }
}
