/**
 pkg/backup: the repository of repo.go, snapshot runs (jobs.go, tree.go) and Prune
 (repo_prune.go). Every write to disk may succeed, fail, or be where the process
 dies; contents are named by their hash and otherwise opaque.
 */
module BackupRepo {
  import opened Options
  import R = Retention

  type Sha = string

  datatype Component = DB | Config | State | NZB | Overlay | Links | Hearsay

  const ALL_COMPONENTS := [DB, Config, State, NZB, Overlay, Links, Hearsay]

  predicate IsWalk(c: Component) {
    c == NZB || c == Overlay
  }

  function Filter(cs: seq<Component>, want: set<Component>, walk: bool): (r: seq<Component>)
    ensures forall c :: c in r <==> c in cs && c in want && IsWalk(c) == walk
  {
    if cs == [] then []
    else (if cs[0] in want && IsWalk(cs[0]) == walk then [cs[0]] else []) + Filter(cs[1..], want, walk)
  }

  /** orderComponents: those wanted, in the fixed order, but the walks last. */
  function OrderComponents(want: set<Component>): seq<Component> {
    Filter(ALL_COMPONENTS, want, false) + Filter(ALL_COMPONENTS, want, true)
  }

  /** How many components come before the walks. */
  function Plain(want: set<Component>): nat {
    |Filter(ALL_COMPONENTS, want, false)|
  }

  /** How many components are done when a run saves early: all but the walks, or one walk if there is nothing else. */
  function EarlyCount(want: set<Component>): nat {
    if Plain(want) == 0 then 1 else Plain(want)
  }

  lemma {:induction false} FilterDistinct(cs: seq<Component>, want: set<Component>, walk: bool)
    requires forall i, j :: 0 <= i < j < |cs| ==> cs[i] != cs[j]
    ensures forall i, j :: 0 <= i < j < |Filter(cs, want, walk)| ==> Filter(cs, want, walk)[i] != Filter(cs, want, walk)[j]
  {
    if cs != [] {
      FilterDistinct(cs[1..], want, walk);
      var r := Filter(cs[1..], want, walk);
      assert forall i :: 0 <= i < |r| ==> r[i] in cs[1..];
    }
  }

  /** Every wanted component once, and no walk before a component that needs none. */
  lemma OrderIsComplete(want: set<Component>)
    ensures var order := OrderComponents(want);
      && (set c | c in order) == want
      && (forall i, j :: 0 <= i < j < |order| ==> order[i] != order[j])
      && (forall i :: 0 <= i < |order| ==> (IsWalk(order[i]) <==> Plain(want) <= i))
  {
    var plain, walks := Filter(ALL_COMPONENTS, want, false), Filter(ALL_COMPONENTS, want, true);
    AllDistinct();
    FilterDistinct(ALL_COMPONENTS, want, false);
    FilterDistinct(ALL_COMPONENTS, want, true);
    hide Filter;
    assert forall i :: 0 <= i < |plain| ==> plain[i] in plain;
    assert forall i :: 0 <= i < |walks| ==> walks[i] in walks;
  }

  lemma AllDistinct()
    ensures forall i, j :: 0 <= i < j < |ALL_COMPONENTS| ==> ALL_COMPONENTS[i] != ALL_COMPONENTS[j]
    ensures forall c: Component :: c in ALL_COMPONENTS
  {
    forall c: Component
      ensures c in ALL_COMPONENTS
    {
      var k := match c
        case DB => 0 case Config => 1 case State => 2 case NZB => 3 case Overlay => 4 case Links => 5 case Hearsay => 6;
      assert ALL_COMPONENTS[k] == c;
    }
  }

  /** A component's record: blobs it names itself, and a tree blob naming more. */
  datatype Entry = Entry(direct: set<Sha>, tree: Option<Sha>)

  datatype Manifest = Manifest(partial: bool, entries: map<Component, Entry>)

  /** One file met by a walk: its content's name, and how stat, cache and disk behave. */
  datatype File = File(path: string, sha: Sha, same: bool, steady: bool, gone: bool)

  datatype Dir = Dir(files: seq<File>, under: string -> bool)

  /** What there is to back up. */
  datatype Data = Data(puts: Component -> seq<Sha>, meta: Dir, overlay: Dir, volumeOrder: Dir)

  datatype Fate = Go | Fail | Crash

  datatype Outcome = Done | Failed | Crashed

  /** Every file the walks meet. */
  function Files(data: Data): set<File> {
    (set f | f in data.meta.files) + (set f | f in data.overlay.files) + (set f | f in data.volumeOrder.files)
  }

  /** No file vanishes under the walk, no path is met twice, and a matching stat in the cache means matching contents. */
  ghost predicate Truthful(all: set<File>, cache: map<string, Sha>) {
    && (forall f :: f in all ==> !f.gone && (f.same && f.path in cache ==> cache[f.path] == f.sha))
    && (forall f, g :: f in all && g in all && f.path == g.path ==> f == g)
  }

  function Shas(dir: Dir): set<Sha> {
    set f | f in dir.files :: f.sha
  }

  /** storeFile takes the cached hash when stat matches and the blob is still there. */
  predicate Reused(f: File, cache: map<string, Sha>, blobs: set<Sha>) {
    f.same && f.path in cache && cache[f.path] in blobs
  }

  predicate Skipped(f: File, cache: map<string, Sha>, blobs: set<Sha>) {
    !Reused(f, cache, blobs) && f.gone
  }

  function Stored(f: File, cache: map<string, Sha>, blobs: set<Sha>): Sha {
    if Reused(f, cache, blobs) then cache[f.path] else f.sha
  }

  class FileRepo {
    const treeOf: Sha -> Option<set<Sha>>    // what a blob says when read as a tree
    const nameOf: set<Sha> -> Sha            // the hash of the tree blob listing these
    const fates: nat -> Fate
    var now: nat
    var manifests: map<string, Manifest>
    var blobs: set<Sha>
    var cache: map<string, Sha>              // the saved file cache

    constructor (treeOf: Sha -> Option<set<Sha>>, nameOf: set<Sha> -> Sha, fates: nat -> Fate)
      requires forall files :: treeOf(nameOf(files)) == Some(files)
      ensures Closed() && Lawful() && manifests == map[] && blobs == {} && cache == map[]
    {
      this.treeOf := treeOf;
      this.nameOf := nameOf;
      this.fates := fates;
      now := 0;
      manifests := map[];
      blobs := {};
      cache := map[];
    }

    /** A tree blob reads back as what was written. */
    ghost predicate Lawful() {
      forall files :: treeOf(nameOf(files)) == Some(files)
    }

    function EntryRefs(e: Entry): set<Sha> {
      e.direct + if e.tree.None? then {} else {e.tree.value} + TreeFiles(e.tree.value)
    }

    function TreeFiles(tree: Sha): set<Sha> {
      if treeOf(tree).None? then {} else treeOf(tree).value
    }

    /** Everything an entry refers to is stored, and its tree can be read. */
    predicate EntryStored(e: Entry, blobs: set<Sha>) {
      EntryRefs(e) <= blobs && (e.tree.Some? ==> treeOf(e.tree.value).Some?)
    }

    ghost predicate EntriesStored(entries: map<Component, Entry>, blobs: set<Sha>) {
      forall c :: c in entries ==> EntryStored(entries[c], blobs)
    }

    ghost predicate AllStored(manifests: map<string, Manifest>, blobs: set<Sha>) {
      forall id :: id in manifests ==> EntriesStored(manifests[id].entries, blobs)
    }

    ghost predicate CacheStored(cache: map<string, Sha>, blobs: set<Sha>) {
      forall path :: path in cache ==> cache[path] in blobs
    }

    /** The safety property: every blob a manifest or the saved cache names is stored. */
    ghost predicate Closed()
      reads this`manifests, this`blobs, this`cache
    {
      AllStored(manifests, blobs) && CacheStored(cache, blobs)
    }

    // Blobs.

    method PutBlob(sha: Sha) returns (o: Outcome)
      modifies this`now, this`blobs
      ensures blobs == if o == Done then old(blobs) + {sha} else old(blobs)
    {
      var fate := fates(now);
      now := now + 1;
      if sha in blobs {
        return Done;
      }
      match fate {
        case Go =>
          blobs := blobs + {sha};
          o := Done;
        case Fail => o := Failed;
        case Crash => o := Crashed;
      }
    }

    /** putFiles, the database export and the links manifest: blobs stored one by one. */
    method PutAll(shas: seq<Sha>) returns (o: Outcome, direct: set<Sha>)
      modifies this`now, this`blobs
      ensures old(blobs) <= blobs
      ensures o == Done ==> direct == (set s | s in shas) && direct <= blobs
    {
      o, direct := Done, {};
      for i := 0 to |shas|
        invariant old(blobs) <= blobs
        invariant direct == (set s | s in shas[..i]) && direct <= blobs
      {
        o := PutBlob(shas[i]);
        if o != Done {
          return;
        }
        direct := direct + {shas[i]};
      }
      assert shas[..|shas|] == shas;
      o := Done;
    }

    /** storeFile; mem is the file cache of the run, saved only at its end. */
    method StoreFile(f: File, mem: map<string, Sha>, ghost all: set<File>)
      returns (o: Outcome, stored: Option<Sha>, mem': map<string, Sha>)
      requires CacheStored(mem, blobs) && f in all
      modifies this`now, this`blobs
      ensures old(blobs) <= blobs && CacheStored(mem', blobs)
      ensures Truthful(all, mem) ==> Truthful(all, mem') && (o == Done ==> stored == Some(f.sha))
      ensures o == Done && stored.Some? && f.steady && !Reused(f, mem, old(blobs)) ==> f.path in mem' && mem'[f.path] == f.sha
      ensures o == Done && Skipped(f, mem, old(blobs)) ==> stored == None
      ensures o == Done && !Skipped(f, mem, old(blobs)) ==>
        stored == Some(Stored(f, mem, old(blobs))) && stored.value in blobs
    {
      mem' := mem;
      if f.same && f.path in mem && mem[f.path] in blobs {
        return Done, Some(mem[f.path]), mem;
      }
      if f.gone {
        return Done, None, mem;
      }
      o := PutBlob(f.sha);
      stored := None;
      if o == Done {
        stored := Some(f.sha);
        mem' := if f.steady then mem[f.path := f.sha] else mem - {f.path};
      }
    }

    /** WalkTree: every file's blob first, then the tree blob listing them. */
    method WalkTree(dir: Dir, mem: map<string, Sha>, ghost all: set<File>)
      returns (o: Outcome, tree: Sha, ghost files: set<Sha>, mem': map<string, Sha>)
      requires CacheStored(mem, blobs) && Lawful() && forall f :: f in dir.files ==> f in all
      modifies this`now, this`blobs
      ensures old(blobs) <= blobs && CacheStored(mem', blobs)
      ensures o == Done ==> tree == nameOf(files) && tree in blobs && files <= blobs
      ensures Truthful(all, mem) ==> Truthful(all, mem') && (o == Done ==> files == Shas(dir))
    {
      mem', tree := mem, "";
      var listed: set<Sha>, seen: set<string> := {}, {};
      files := {};
      for i := 0 to |dir.files|
        invariant old(blobs) <= blobs && CacheStored(mem', blobs) && listed <= blobs
        invariant Truthful(all, mem) ==> Truthful(all, mem') && listed == set f | f in dir.files[..i] :: f.sha
      {
        var stored;
        o, stored, mem' := StoreFile(dir.files[i], mem', all);
        if o != Done {
          return;
        }
        if stored.Some? {
          listed := listed + {stored.value};
          seen := seen + {dir.files[i].path};
        }
      }
      assert dir.files[..|dir.files|] == dir.files;
      mem' := map path | path in mem' && (dir.under(path) ==> path in seen) :: mem'[path];
      tree := nameOf(listed);
      files := listed;
      o := PutBlob(tree);
    }

    /** captureOverlay: two walks, and one tree blob merging what they list. */
    method CaptureOverlay(data: Data, mem: map<string, Sha>)
      returns (o: Outcome, tree: Sha, ghost files: set<Sha>, mem': map<string, Sha>)
      requires CacheStored(mem, blobs) && Lawful()
      modifies this`now, this`blobs
      ensures old(blobs) <= blobs && CacheStored(mem', blobs)
      ensures o == Done ==> tree == nameOf(files) && tree in blobs && files <= blobs
      ensures Truthful(Files(data), mem) ==>
        Truthful(Files(data), mem') && (o == Done ==> files == Shas(data.overlay) + Shas(data.volumeOrder))
    {
      hide Truthful, Shas;
      var first, second;
      ghost var f1, f2;
      files := {};
      o, first, f1, mem' := WalkTree(data.overlay, mem, Files(data));
      tree := first;
      if o != Done {
        return;
      }
      o, second, f2, mem' := WalkTree(data.volumeOrder, mem', Files(data));
      if o != Done {
        return;
      }
      var merged := TreeFiles(first) + TreeFiles(second);
      files := f1 + f2;
      tree := nameOf(merged);
      o := PutBlob(tree);
    }

    /** What a complete reading of the data records for a component. */
    function Expected(c: Component, data: Data): Entry {
      if c == NZB then Entry({}, Some(nameOf(Shas(data.meta))))
      else if c == Overlay then Entry({}, Some(nameOf(Shas(data.overlay) + Shas(data.volumeOrder))))
      else Entry((set sha | sha in data.puts(c)), None)
    }

    /** The entries record what there is; for the walks, if they could trust the cache. */
    ghost predicate Right(entries: map<Component, Entry>, data: Data, trusted: bool) {
      forall c :: c in entries && (trusted || !IsWalk(c)) ==> entries[c] == Expected(c, data)
    }

    method Capture(c: Component, data: Data, mem: map<string, Sha>)
      returns (o: Outcome, entry: Entry, mem': map<string, Sha>)
      requires CacheStored(mem, blobs) && Lawful()
      modifies this`now, this`blobs
      ensures old(blobs) <= blobs && CacheStored(mem', blobs)
      ensures o == Done ==> EntryStored(entry, blobs)
      ensures Truthful(Files(data), mem) ==> Truthful(Files(data), mem')
      ensures o == Done && (Truthful(Files(data), mem) || !IsWalk(c)) ==> entry == Expected(c, data)
    {
      hide Truthful, Shas;
      entry := Entry({}, None);
      mem' := mem;
      if c == NZB {
        var tree;
        ghost var files;
        o, tree, files, mem' := WalkTree(data.meta, mem, Files(data));
        entry := Entry({}, Some(tree));
      } else if c == Overlay {
        var tree;
        ghost var files;
        o, tree, files, mem' := CaptureOverlay(data, mem);
        entry := Entry({}, Some(tree));
      } else {
        var direct;
        o, direct := PutAll(data.puts(c));
        entry := Entry(direct, None);
      }
    }

    // Snapshots.

    method WriteSnapshot(id: string, m: Manifest) returns (o: Outcome)
      requires Closed() && EntriesStored(m.entries, blobs)
      modifies this`now, this`manifests
      ensures Closed()
      ensures manifests == if o == Done then old(manifests)[id := m] else old(manifests)
    {
      var fate := fates(now);
      now := now + 1;
      match fate {
        case Go =>
          manifests := manifests[id := m];
          o := Done;
        case Fail => o := Failed;
        case Crash => o := Crashed;
      }
    }

    /** What a run may leave under its id: what it saved early, or everything. */
    ghost predicate AsPlanned(m: Manifest, want: set<Component>) {
      var order := OrderComponents(want);
      if m.partial then EarlyCount(want) < |order| && m.entries.Keys == set c | c in order[..EarlyCount(want)]
      else m.entries.Keys == want
    }

    /** A run leaves every other manifest alone, and under its own id nothing but what it may. */
    ghost predicate Leaves(id: string, before: map<string, Manifest>, after: map<string, Manifest>,
                           want: set<Component>, data: Data, trusted: bool) {
      && (forall i :: i != id ==> (i in after <==> i in before))
      && (forall i :: i != id && i in after ==> after[i] == before[i])
      && (id in before ==> id in after)
      && (id in after ==>
          || (id in before && after[id] == before[id])
          || (AsPlanned(after[id], want) && Right(after[id].entries, data, trusted)))
    }

    lemma LeavesNext(id: string, before: map<string, Manifest>, mid: map<string, Manifest>, m: Manifest,
                     want: set<Component>, data: Data, trusted: bool)
      requires Leaves(id, before, mid, want, data, trusted)
      requires AsPlanned(m, want) && Right(m.entries, data, trusted)
      ensures Leaves(id, before, mid[id := m], want, data, trusted)
    {
      hide AsPlanned, Right;
    }

    lemma LeavesNothing(id: string, before: map<string, Manifest>, want: set<Component>, data: Data, trusted: bool)
      ensures Leaves(id, before, before, want, data, trusted)
    {
    }

    lemma StoredGrows(manifests: map<string, Manifest>, entries: map<Component, Entry>, blobs: set<Sha>, more: set<Sha>)
      requires blobs <= more
      ensures AllStored(manifests, blobs) ==> AllStored(manifests, more)
      ensures EntriesStored(entries, blobs) ==> EntriesStored(entries, more)
    {
      forall e: Entry | EntryStored(e, blobs)
        ensures EntryStored(e, more)
      {
      }
    }

    lemma NothingRecorded(blobs: set<Sha>, data: Data, trusted: bool)
      ensures EntriesStored(map[], blobs) && Right(map[], data, trusted)
    {
    }

    lemma RightAdded(entries: map<Component, Entry>, c: Component, e: Entry, data: Data, trusted: bool)
      requires Right(entries, data, trusted) && (trusted || !IsWalk(c) ==> e == Expected(c, data))
      ensures Right(entries[c := e], data, trusted)
    {
    }

    lemma EntryAdded(entries: map<Component, Entry>, c: Component, e: Entry, blobs: set<Sha>)
      requires EntriesStored(entries, blobs) && EntryStored(e, blobs)
      ensures EntriesStored(entries[c := e], blobs)
    {
    }

    /** The early save comes exactly when the first walk does, unless nothing is done yet. */
    lemma EarlyStep(want: set<Component>, i: nat, entries: map<Component, Entry>)
      requires i < |OrderComponents(want)| && entries.Keys == set c | c in OrderComponents(want)[..i]
      ensures 1 <= EarlyCount(want)
      ensures !IsWalk(OrderComponents(want)[i]) ==> i < EarlyCount(want)
      ensures IsWalk(OrderComponents(want)[i]) && 0 < i <= EarlyCount(want) ==>
        i == EarlyCount(want) && AsPlanned(Manifest(true, entries), want)
    {
      OrderIsComplete(want);
      hide OrderComponents, Filter;
    }

    lemma AllPlanned(want: set<Component>, entries: map<Component, Entry>)
      requires entries.Keys == want
      ensures AsPlanned(Manifest(false, entries), want)
    {
    }

    /** Capturing one more component breaks nothing stored so far. */
    method CaptureNext(c: Component, data: Data, mem: map<string, Sha>, ghost entries: map<Component, Entry>)
      returns (o: Outcome, entry: Entry, mem': map<string, Sha>)
      requires Closed() && Lawful() && CacheStored(mem, blobs) && EntriesStored(entries, blobs)
      modifies this`now, this`blobs
      ensures Closed() && old(blobs) <= blobs && CacheStored(mem', blobs) && EntriesStored(entries, blobs)
      ensures o == Done ==> EntryStored(entry, blobs)
      ensures Truthful(Files(data), mem) ==> Truthful(Files(data), mem')
      ensures o == Done && (Truthful(Files(data), mem) || !IsWalk(c)) ==> entry == Expected(c, data)
    {
      ghost var had := blobs;
      o, entry, mem' := Capture(c, data, mem);
      StoredGrows(manifests, entries, had, blobs);
      CacheGrows(cache, had, blobs);
      hide *;
    }

    /** The part of snapshot that the saving of the cache is deferred behind. */
    method Record(id: string, want: set<Component>, walks: bool, data: Data, cached: map<string, Sha>)
      returns (o: Outcome, mem: map<string, Sha>)
      requires Closed() && Lawful() && CacheStored(cached, blobs)
      modifies this`now, this`blobs, this`manifests
      ensures Closed() && CacheStored(mem, blobs) && old(blobs) <= blobs
      ensures Leaves(id, old(manifests), manifests, want, data, Truthful(Files(data), cached))
      ensures o == Done ==> id in manifests && !manifests[id].partial && manifests[id].entries.Keys == want
      ensures o == Done ==> Right(manifests[id].entries, data, Truthful(Files(data), cached))
    {
      OrderIsComplete(want);
      ghost var trusted := Truthful(Files(data), cached);
      hide Right, Expected, Truthful, Leaves, Files;
      hide CacheStored, EntryStored, EntryRefs, EntriesStored, AllStored, AsPlanned, EarlyCount, Lawful;
      hide OrderComponents, Plain, Filter, Closed;
      NothingRecorded(blobs, data, trusted);
      var order := OrderComponents(want);
      var entries: map<Component, Entry> := map[];
      var partial := false;
      mem, o := cached, Done;
      LeavesNothing(id, manifests, want, data, trusted);
      for i := 0 to |order|
        invariant Closed() && CacheStored(mem, blobs) && old(blobs) <= blobs
        invariant Leaves(id, old(manifests), manifests, want, data, trusted)
        invariant EntriesStored(entries, blobs) && Right(entries, data, trusted)
        invariant trusted ==> Truthful(Files(data), mem)
        invariant entries.Keys == set c | c in order[..i]
        invariant partial <==> walks && i > EarlyCount(want)
      {
        var c := order[i];
        assert i > 0 ==> order[0] in entries.Keys;
        EarlyStep(want, i, entries);
        if IsWalk(c) && walks && !partial && |entries| > 0 {
          LeavesNext(id, old(manifests), manifests, Manifest(true, entries), want, data, trusted);
          o := WriteSnapshot(id, Manifest(true, entries));
          if o != Done {
            return;
          }
          partial := true;
        }
        var entry;
        o, entry, mem := CaptureNext(c, data, mem, entries);
        if o != Done {
          return;
        }
        EntryAdded(entries, c, entry, blobs);
        RightAdded(entries, c, entry, data, trusted);
        entries := entries[c := entry];
      }
      assert order[..|order|] == order;
      AllPlanned(want, entries);
      LeavesNext(id, old(manifests), manifests, Manifest(false, entries), want, data, trusted);
      o := WriteSnapshot(id, Manifest(false, entries));
    }

    lemma CacheGrows(cache: map<string, Sha>, blobs: set<Sha>, more: set<Sha>)
      requires CacheStored(cache, blobs) && blobs <= more
      ensures CacheStored(cache, more)
    {
    }

    /**
     snapshot, under the repository lock: it loads the file cache (an unreadable one is
     removed), records, and saves the cache unless the process dies first.
     */
    method Snapshot(id: string, want: set<Component>, walks: bool, data: Data) returns (o: Outcome)
      requires Closed() && Lawful()
      modifies this`now, this`blobs, this`manifests, this`cache
      ensures Closed() && old(blobs) <= blobs
      ensures Leaves(id, old(manifests), manifests, want, data, Truthful(Files(data), old(cache)))
      ensures o == Done ==> id in manifests && !manifests[id].partial && manifests[id].entries.Keys == want
      ensures o == Done ==> Right(manifests[id].entries, data, Truthful(Files(data), old(cache)))
    {
      hide CacheStored, AllStored, AsPlanned;
      RightGoesOn(data, cache);
      LeavesMore(id, manifests, want, data);
      hide Right, Truthful, Leaves;
      var loaded := cache;
      if fates(now) == Fail {
        loaded, cache := map[], map[];
      }
      NothingCached(blobs);
      now := now + 1;
      var mem;
      o, mem := Record(id, want, walks, data, loaded);
      if o != Crashed {
        match fates(now) {
          case Go => cache := mem;
          case Fail =>
          case Crash => o := Crashed;
        }
        now := now + 1;
      }
    }

    /** What may be trusted with some cache may be trusted with none. */
    lemma RightGoesOn(data: Data, cache: map<string, Sha>)
      ensures Truthful(Files(data), cache) ==> Truthful(Files(data), map[])
      ensures forall entries :: Right(entries, data, true) ==> Right(entries, data, false)
    {
    }

    lemma LeavesMore(id: string, before: map<string, Manifest>, want: set<Component>, data: Data)
      ensures forall after :: Leaves(id, before, after, want, data, true) ==> Leaves(id, before, after, want, data, false)
    {
      RightGoesOn(data, map[]);
      hide Right;
    }

    lemma NothingCached(blobs: set<Sha>)
      ensures CacheStored(map[], blobs)
    {
    }

    // Pruning.

    /** Some manifest outside del refers to sha. */
    ghost predicate Named(sha: Sha, del: set<string>)
      reads this`manifests
    {
      exists id, c :: id in manifests && id !in del && c in manifests[id].entries && sha in EntryRefs(manifests[id].entries[c])
    }

    /** What must stay: everything the manifests outside del, or the saved cache, refer to. */
    ghost predicate Live(sha: Sha, del: set<string>)
      reads this`manifests, this`cache
    {
      (exists path :: path in cache && cache[path] == sha) || Named(sha, del)
    }

    /** snapshotShas for every manifest outside del, and cachedShas; an unreadable tree is an error. */
    method Mark(del: set<string>) returns (ok: bool, live: set<Sha>)
      ensures ok ==> forall sha :: sha in live <==> Live(sha, del)
      ensures !ok ==> exists id :: id in manifests && id !in del && !EntriesStored(manifests[id].entries, blobs)
    {
      live := set path | path in cache :: cache[path];
      ok := true;
      var ids := manifests.Keys - del;
      ghost var seen: set<string> := {};
      while ids != {}
        invariant ids + seen == manifests.Keys - del && ids !! seen
        invariant forall sha :: sha in live <==>
          (exists path :: path in cache && cache[path] == sha)
          || (exists id, c :: id in seen && c in manifests[id].entries && sha in EntryRefs(manifests[id].entries[c]))
      {
        var id :| id in ids;
        var m := manifests[id];
        var more;
        ok, more := MarkManifest(m);
        if !ok {
          return;
        }
        live := live + more;
        ids, seen := ids - {id}, seen + {id};
      }
    }

    method MarkManifest(m: Manifest) returns (ok: bool, refs: set<Sha>)
      ensures ok ==> forall sha :: sha in refs <==> exists c :: c in m.entries && sha in EntryRefs(m.entries[c])
      ensures !ok ==> exists c :: c in m.entries && !EntryStored(m.entries[c], blobs)
    {
      refs, ok := {}, true;
      var todo := m.entries.Keys;
      ghost var seen: set<Component> := {};
      while todo != {}
        invariant todo + seen == m.entries.Keys && todo !! seen
        invariant forall sha :: sha in refs <==> exists c :: c in seen && sha in EntryRefs(m.entries[c])
      {
        var c :| c in todo;
        var e := m.entries[c];
        refs := refs + e.direct;
        if e.tree.Some? {
          if e.tree.value !in blobs || treeOf(e.tree.value).None? {
            return false, refs;
          }
          refs := refs + {e.tree.value} + treeOf(e.tree.value).value;
        }
        todo, seen := todo - {c}, seen + {c};
      }
    }

    /** With nothing but live blobs certain to be there, the repository is closed. */
    lemma LiveSuffices(live: set<Sha>, del: set<string>)
      requires forall sha :: Live(sha, del) ==> sha in blobs
      requires forall id :: id in manifests ==> id !in del
      requires forall id, c :: id in manifests && c in manifests[id].entries ==>
        var e := manifests[id].entries[c]; e.tree.Some? ==> treeOf(e.tree.value).Some?
      ensures Closed()
    {
      forall id, c, sha | id in manifests && c in manifests[id].entries && sha in EntryRefs(manifests[id].entries[c])
        ensures sha in blobs
      {
        assert Live(sha, del);
      }
      forall path | path in cache
        ensures cache[path] in blobs
      {
        assert Live(cache[path], del);
      }
    }

    /** The plan's manifests go first, one by one; the ones left are as they were. */
    method DeleteManifests(ids: seq<string>) returns (o: Outcome)
      requires Closed()
      modifies this`now, this`manifests
      ensures Closed()
      ensures forall id :: id in manifests ==> id in old(manifests) && manifests[id] == old(manifests[id])
      ensures forall id :: id in old(manifests) && id !in ids ==> id in manifests
      ensures o == Done ==> forall id :: id in manifests ==> id !in ids
    {
      for i := 0 to |ids|
        invariant Closed()
        invariant forall id :: id in manifests ==> id in old(manifests) && manifests[id] == old(manifests[id])
        invariant forall id :: id in old(manifests) && id !in ids ==> id in manifests
        invariant forall id :: id in manifests ==> id !in ids[..i]
      {
        var fate := fates(now);
        now := now + 1;
        if ids[i] in manifests {
          match fate {
            case Go => manifests := manifests - {ids[i]};
            case Fail => return Failed;
            case Crash => return Crashed;
          }
        }
      }
      assert ids[..|ids|] == ids;
      o := Done;
    }

    /** Then the plan's blobs, except those that are live. */
    method Sweep(shas: seq<Sha>, live: set<Sha>) returns (o: Outcome)
      modifies this`now, this`blobs
      ensures blobs <= old(blobs)
      ensures forall sha :: sha in old(blobs) && (sha in live || sha !in shas) ==> sha in blobs
      ensures o == Done ==> forall sha :: sha in blobs && sha in shas ==> sha in live
    {
      for i := 0 to |shas|
        invariant blobs <= old(blobs)
        invariant forall sha :: sha in old(blobs) && (sha in live || sha !in shas) ==> sha in blobs
        invariant forall sha :: sha in blobs && sha in shas[..i] ==> sha in live
      {
        var fate := fates(now);
        now := now + 1;
        if shas[i] !in live && shas[i] in blobs {
          match fate {
            case Go => blobs := blobs - {shas[i]};
            case Fail => return Failed;
            case Crash => return Crashed;
          }
        }
      }
      assert shas[..|shas|] == shas;
      o := Done;
    }

    /**
     Prune, under the repository lock, with a plan of any age: references are computed
     afresh, so wherever it stops nothing still named is gone.
     */
    method Prune(ids: seq<string>, shas: seq<Sha>) returns (o: Outcome)
      requires Closed()
      modifies this`now, this`manifests, this`blobs, this`cache
      ensures Closed() && (cache == old(cache) || cache == map[])
      ensures forall id :: id in manifests ==> id in old(manifests) && manifests[id] == old(manifests[id])
      ensures forall id :: id in old(manifests) && id !in ids ==> id in manifests
      ensures blobs <= old(blobs) && forall sha :: sha in old(blobs) && sha !in blobs ==> sha in shas && !Live(sha, {})
      ensures o == Done ==> forall id :: id in manifests ==> id !in ids
      ensures o == Done ==> forall sha :: sha in blobs && sha in shas ==> Live(sha, {})
    {
      if fates(now) == Fail {
        cache := map[];
      }
      now := now + 1;
      var del := set id | id in ids;
      var ok, live := Mark(del);
      if !ok {
        return Failed;
      }
      ghost var before := manifests;
      ghost var had := blobs;
      assert forall sha :: sha in live ==> sha in blobs by { LiveIsStored(del); }
      o := DeleteManifests(ids);
      if o != Done {
        return;
      }
      assert forall sha :: sha in live <==> Live(sha, del);
      o := Sweep(shas, live);
      LiveSuffices(live, del);
    }

    lemma LiveIsStored(del: set<string>)
      requires Closed()
      ensures forall sha :: Live(sha, del) ==> sha in blobs
    {
    }

    /** loadSnapshots: one listed snapshot per manifest. */
    ghost predicate Lists(listing: seq<R.Snap>)
      reads this`manifests
    {
      && R.DistinctIds(listing)
      && R.Ids(listing) == manifests.Keys
      && forall s :: s in listing ==> s.id in manifests && (s.partial <==> manifests[s.id].partial)
    }

    method PlannedIds(p: R.Policy, clock: int, listing: seq<R.Snap>) returns (ids: seq<string>)
      requires R.DistinctIds(listing)
      ensures (set id | id in ids) == R.Ids(listing) - R.Kept(p, clock, listing)
      ensures R.Kept(p, clock, listing) <= R.Ids(listing)
    {
      var delete, _ := R.PlanDeletes(p, clock, listing);
      ids := seq(|delete|, k requires 0 <= k < |delete| => delete[k].id);
      RemainingIds(listing, R.Ids(listing) - R.Kept(p, clock, listing));
      assert forall k :: 0 <= k < |delete| ==> ids[k] == delete[k].id;
      assert (set id | id in ids) == R.Ids(delete);
    }

    /** PrunePlan: the snapshots the policy drops, and every blob only they, or nobody, refer to. */
    method PrunePlan(p: R.Policy, clock: int, listing: seq<R.Snap>) returns (ok: bool, ids: seq<string>, shas: set<Sha>)
      requires Closed() && Lists(listing)
      modifies this`now, this`cache
      ensures Closed() && ok && (cache == old(cache) || cache == map[])
      ensures R.Kept(p, clock, listing) <= manifests.Keys
      ensures (set id | id in ids) == manifests.Keys - R.Kept(p, clock, listing)
      ensures forall sha :: sha in shas <==> sha in blobs && !Live(sha, set id | id in ids)
    {
      ids := PlannedIds(p, clock, listing);
      var del := set id | id in ids;
      hide R.Kept, EntryRefs, EntryStored;
      if fates(now) == Fail {
        cache := map[];
      }
      now := now + 1;
      var live;
      ok, live := Mark(del);
      shas := blobs - live;
    }

    lemma {:induction false} RemainingIds(listing: seq<R.Snap>, keep: set<string>)
      ensures R.Ids(R.Remaining(listing, keep)) == R.Ids(listing) * keep
    {
      if listing != [] {
        var init, last := listing[..|listing| - 1], listing[|listing| - 1];
        RemainingIds(init, keep);
        assert listing == init + [last];
        var left := R.Remaining(init, keep);
        assert R.Ids(listing) == R.Ids(init) + {last.id};
        if last.id in keep {
          assert R.Remaining(listing, keep) == left + [last];
          assert R.Ids(left + [last]) == R.Ids(left) + {last.id};
        } else {
          assert R.Remaining(listing, keep) == left;
        }
      }
    }

    /**
     Planning and pruning with nothing in between: exactly the policy's snapshots stay,
     and no blob but those they or the file cache refer to.
     */
    method ApplyRetention(p: R.Policy, clock: int, listing: seq<R.Snap>) returns (o: Outcome)
      requires Closed() && Lists(listing)
      modifies this`now, this`manifests, this`blobs, this`cache
      ensures Closed()
      ensures forall id :: id in R.Kept(p, clock, listing) ==> id in manifests
      ensures forall id :: id in manifests ==> id in old(manifests) && manifests[id] == old(manifests[id])
      ensures o == Done ==> manifests.Keys == R.Kept(p, clock, listing)
      ensures o == Done ==> forall sha :: sha in blobs ==> Named(sha, {}) || sha in old(cache.Values)
    {
      hide R.Kept, EntryRefs, EntryStored, Closed;
      var ok, ids, shas := PrunePlan(p, clock, listing);
      ghost var del := set id | id in ids;
      assert forall sha :: sha in blobs && sha !in shas ==> Named(sha, del) || sha in old(cache.Values);
      assert forall id :: id in del <==> id in ids;
      if ids == [] && shas == {} {
        var kept := R.Kept(p, clock, listing);
        assert forall id :: id in manifests.Keys ==> id in kept || id in del;
        assert manifests.Keys == kept;
        return Done;
      }
      var list := Listed(shas);
      label planned:
      o := Prune(ids, list);
      forall sha | old@planned(Named(sha, del))
        ensures Named(sha, {})
      {
      }
      assert o == Done ==> manifests.Keys == old(manifests.Keys) - del;
    }
  }

  /** A set's elements as a list, in whatever order. */
  method Listed(shas: set<Sha>) returns (list: seq<Sha>)
    ensures forall sha :: sha in list <==> sha in shas
  {
    list := [];
    var todo := shas;
    while todo != {}
      invariant todo <= shas
      invariant forall sha :: sha in list <==> sha in shas && sha !in todo
    {
      var sha :| sha in todo;
      list, todo := list + [sha], todo - {sha};
    }
  }

  /** What may be asked of a repository over its life, a crash or an error anywhere in it. */
  datatype Op =
    | Take(id: string, want: set<Component>, walks: bool, data: Data)
    | Prune(ids: seq<string>, shas: seq<Sha>)

  /** Any runs and prunes one after the other, plans made at any earlier time included. */
  method Life(repo: FileRepo, ops: seq<Op>)
    requires repo.Closed() && repo.Lawful()
    modifies repo
    ensures repo.Closed()
  {
    for i := 0 to |ops|
      invariant repo.Closed() && repo.Lawful()
    {
      var o;
      match ops[i] {
        case Take(id, want, walks, data) => o := repo.Snapshot(id, want, walks, data);
        case Prune(ids, shas) => o := repo.Prune(ids, shas);
      }
    }
  }
}
