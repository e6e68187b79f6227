/**
 pkg/backup/offsite.go: mirror, which copies the repository to a remote and deletes
 there what the local one no longer has. Each remote operation may succeed, fail, or
 be the last.
 */
module Mirror {
  import opened Options
  import BackupRepo

  type Sha = string

  /** A local snapshot and every blob it refers to. */
  datatype Snap = Snap(id: string, partial: bool, refs: set<Sha>)

  /** The local repository while the mirror runs: nothing else writes to it. */
  datatype Local = Local(createdAt: int, snaps: seq<Snap>, blobs: set<Sha>)

  /** What a run did to the remote, in order. */
  datatype Action = PutBlob(sha: Sha) | PutManifest(id: string) | DropManifest(id: string) | DropBlob(sha: Sha)

  const MAX_DELETES := 50

  function Stage(a: Action): nat {
    match a case PutBlob(_) => 0 case PutManifest(_) => 1 case DropManifest(_) => 2 case DropBlob(_) => 3
  }

  /** Blobs are put before manifests, and all manifests are dropped before any blob. */
  ghost predicate InStages(log: seq<Action>) {
    forall i, j :: 0 <= i < j < |log| ==> Stage(log[i]) <= Stage(log[j])
  }

  ghost predicate AtMost(log: seq<Action>, stage: nat) {
    forall i :: 0 <= i < |log| ==> Stage(log[i]) <= stage
  }

  lemma Higher(log: seq<Action>)
    ensures forall k: nat, m: nat :: k <= m && AtMost(log, k) ==> AtMost(log, m)
  {
  }

  lemma Logged(log: seq<Action>, a: Action)
    requires InStages(log) && AtMost(log, Stage(a))
    ensures InStages(log + [a]) && AtMost(log + [a], Stage(a))
    ensures Dropped(log + [a]) == Dropped(log) + if a.DropManifest? then 1 else 0
  {
    assert (log + [a])[..|log|] == log;
  }

  function Dropped(log: seq<Action>): nat {
    if log == [] then 0
    else Dropped(log[..|log| - 1]) + if log[|log| - 1].DropManifest? then 1 else 0
  }

  /** The complete snapshots are the only ones that are mirrored. */
  ghost predicate Complete(local: Local, id: string, refs: set<Sha>) {
    exists i :: 0 <= i < |local.snaps| && local.snaps[i] == Snap(id, false, refs)
  }

  ghost predicate Wanted(local: Local, id: string) {
    exists i :: 0 <= i < |local.snaps| && local.snaps[i].id == id && !local.snaps[i].partial
  }

  ghost predicate LiveLocally(local: Local, sha: Sha) {
    exists i :: 0 <= i < |local.snaps| && !local.snaps[i].partial && sha in local.snaps[i].refs
  }

  class Remote {
    const works: nat -> bool              // whether the next operation succeeds
    var now: nat
    var repo: Option<int>                 // repo.json's creation time
    var manifests: map<string, set<Sha>>
    var blobs: set<Sha>
    ghost var log: seq<Action>

    /** Every manifest on the remote has all its blobs there. */
    ghost predicate Closed()
      reads this`manifests, this`blobs
    {
      forall id :: id in manifests ==> manifests[id] <= blobs
    }

    /** No one else writes manifests: those under a local id are the local ones. */
    ghost predicate Agrees(local: Local)
      reads this`manifests
    {
      forall i :: 0 <= i < |local.snaps| && !local.snaps[i].partial && local.snaps[i].id in manifests ==>
        manifests[local.snaps[i].id] == local.snaps[i].refs
    }

    /** Every manifest was there before or is a complete local one. */
    ghost predicate OldOrMirrored(local: Local, before: map<string, set<Sha>>)
      reads this`manifests
    {
      forall id :: id in manifests ==>
        (id in before && manifests[id] == before[id]) || Complete(local, id, manifests[id])
    }

    method Works() returns (ok: bool)
      modifies this`now
    {
      ok := works(now);
      now := now + 1;
    }

    /** rclone copy --ignore-existing of blobs. */
    method CopyBlobs(list: seq<Sha>) returns (ok: bool)
      requires Closed() && InStages(log) && AtMost(log, 0)
      modifies this`now, this`blobs, this`log
      ensures Closed() && InStages(log) && AtMost(log, 0)
      ensures old(blobs) <= blobs && forall sha :: sha in blobs ==> sha in old(blobs) || sha in list
      ensures ok ==> forall sha :: sha in list ==> sha in blobs
    {
      hide InStages, AtMost, Dropped;
      for k := 0 to |list|
        invariant Closed() && InStages(log) && AtMost(log, 0)
        invariant old(blobs) <= blobs && forall sha :: sha in blobs ==> sha in old(blobs) || sha in list
        invariant forall sha :: sha in list[..k] ==> sha in blobs
      {
        ok := Works();
        if !ok {
          return;
        }
        if list[k] !in blobs {
          blobs := blobs + {list[k]};
          Logged(log, PutBlob(list[k]));
          log := log + [PutBlob(list[k])];
        }
      }
      assert list[..|list|] == list;
      ok := true;
    }

    /** rclone copy --ignore-existing of the complete manifests. */
    method CopyManifests(local: Local) returns (ok: bool)
      requires Closed() && Agrees(local) && InStages(log) && AtMost(log, 0)
      requires forall sha :: LiveLocally(local, sha) ==> sha in blobs
      requires forall i, j :: 0 <= i < j < |local.snaps| ==> local.snaps[i].id != local.snaps[j].id
      modifies this`now, this`manifests, this`log
      ensures Closed() && Agrees(local) && InStages(log) && AtMost(log, 1)
      ensures old(manifests.Keys) <= manifests.Keys
      ensures forall id :: id in manifests ==> id in old(manifests) || Wanted(local, id)
      ensures OldOrMirrored(local, old(manifests))
      ensures ok ==> forall id :: Wanted(local, id) ==> id in manifests
    {
      Higher(log);
      hide InStages, AtMost, Dropped;
      for k := 0 to |local.snaps|
        invariant Closed() && Agrees(local) && InStages(log) && AtMost(log, 1)
        invariant old(manifests.Keys) <= manifests.Keys
        invariant forall id :: id in manifests ==> id in old(manifests) || Wanted(local, id)
        invariant OldOrMirrored(local, old(manifests))
        invariant forall i :: 0 <= i < k && !local.snaps[i].partial ==> local.snaps[i].id in manifests
      {
        var s := local.snaps[k];
        if !s.partial {
          ok := Works();
          if !ok {
            return;
          }
          if s.id !in manifests {
            assert forall sha :: sha in s.refs ==> LiveLocally(local, sha);
            manifests := manifests[s.id := s.refs];
            Logged(log, PutManifest(s.id));
            log := log + [PutManifest(s.id)];
          }
        }
      }
      ok := true;
    }

    method DropManifest(id: string) returns (ok: bool)
      requires Closed() && InStages(log) && AtMost(log, 2)
      modifies this`now, this`manifests, this`log
      ensures Closed() && InStages(log) && AtMost(log, 2) && Dropped(log) <= old(Dropped(log)) + 1
      ensures manifests == if ok then old(manifests) - {id} else old(manifests)
    {
      hide InStages, AtMost, Dropped;
      ok := Works();
      if ok && id in manifests {
        manifests := manifests - {id};
        Logged(log, Action.DropManifest(id));
        log := log + [Action.DropManifest(id)];
      }
    }

    /** rclone delete of manifests. */
    method DropManifests(list: seq<string>) returns (ok: bool)
      requires Closed() && InStages(log) && AtMost(log, 1)
      modifies this`now, this`manifests, this`log
      ensures Closed() && InStages(log) && AtMost(log, 2)
      ensures Dropped(log) <= |list|
      ensures forall id :: id in manifests ==> id in old(manifests) && manifests[id] == old(manifests[id])
      ensures forall id :: id in old(manifests) && id !in list ==> id in manifests
      ensures ok ==> forall id :: id in manifests ==> id !in list
    {
      NoneDropped(log);
      Higher(log);
      hide InStages, AtMost, Dropped, Closed;
      for k := 0 to |list|
        invariant Closed() && InStages(log) && AtMost(log, 2)
        invariant Dropped(log) <= k
        invariant forall id :: id in manifests ==> id in old(manifests) && manifests[id] == old(manifests[id])
        invariant forall id :: id in old(manifests) && id !in list ==> id in manifests
        invariant forall id :: id in manifests ==> id !in list[..k]
      {
        ok := DropManifest(list[k]);
        if !ok {
          return;
        }
      }
      assert list[..|list|] == list;
      ok := true;
    }

    /** rclone delete of blobs. */
    method DropBlobs(list: seq<Sha>, ghost live: set<Sha>) returns (ok: bool)
      requires InStages(log) && AtMost(log, 2) && forall sha :: sha in list ==> sha !in live
      requires forall id :: id in manifests ==> manifests[id] <= live
      requires live <= blobs
      modifies this`now, this`blobs, this`log
      ensures Closed() && InStages(log) && Dropped(log) == Dropped(old(log))
      ensures blobs <= old(blobs) && live <= blobs
      ensures ok ==> forall sha :: sha in blobs ==> sha !in list
    {
      Higher(log);
      hide InStages, AtMost, Dropped;
      for k := 0 to |list|
        invariant InStages(log) && AtMost(log, 3) && Dropped(log) == Dropped(old(log))
        invariant blobs <= old(blobs) && live <= blobs
        invariant forall sha :: sha in blobs ==> sha !in list[..k]
      {
        ok := Works();
        if !ok {
          return;
        }
        if list[k] in blobs {
          blobs := blobs - {list[k]};
          Logged(log, DropBlob(list[k]));
          log := log + [DropBlob(list[k])];
        }
      }
      assert list[..|list|] == list;
      ok := true;
    }

    /**
     mirror. However it ends, the remote is closed; it deletes at most 50 manifests, all
     before any blob; and when it succeeds the remote holds exactly the complete local
     snapshots and the blobs they use.
     */
    method Run(local: Local) returns (ok: bool)
      requires Closed() && Agrees(local)
      requires forall i, j :: 0 <= i < j < |local.snaps| ==> local.snaps[i].id != local.snaps[j].id
      modifies this
      ensures Closed() && InStages(log) && Dropped(log) <= MAX_DELETES
      ensures ok ==> forall id :: id in manifests <==> Wanted(local, id)
      ensures Agrees(local) && OldOrMirrored(local, old(manifests))
      ensures ok ==> forall sha :: sha in blobs <==> LiveLocally(local, sha)
      ensures old(repo).Some? && old(repo).value != local.createdAt ==>
        !ok && manifests == old(manifests) && blobs == old(blobs)
    {
      log := [];
      ok := Works();
      if !ok {
        return;
      }
      if repo.Some? && repo.value != local.createdAt {
        return false;
      }
      repo := Some(local.createdAt);
      var live := LiveBlobs(local);
      if !(live <= local.blobs) {
        return false;
      }
      var list := BackupRepo.Listed(live);
      ok := CopyBlobs(list);
      Higher(log);
      NoneDropped(log);
      if !ok {
        return;
      }
      ok := CopyManifests(local);
      NoneDropped(log);
      if !ok {
        return;
      }
      ok := DropRest(local, live);
    }

    /** The last part of mirror: what the local repository no longer has goes. */
    method DropRest(local: Local, live: set<Sha>) returns (ok: bool)
      requires Closed() && Agrees(local) && InStages(log) && AtMost(log, 1)
      requires forall sha :: sha in live <==> LiveLocally(local, sha)
      requires live <= blobs && forall id :: Wanted(local, id) ==> id in manifests
      modifies this`now, this`manifests, this`blobs, this`log
      ensures Closed() && InStages(log) && Dropped(log) <= MAX_DELETES
      ensures ok ==> forall id :: id in manifests <==> Wanted(local, id)
      ensures Agrees(local) && forall id :: id in manifests ==> id in old(manifests) && manifests[id] == old(manifests)[id]
      ensures ok ==> blobs == live
    {
      NoneDropped(log);
      hide InStages, AtMost, Dropped;
      var keep := set i | 0 <= i < |local.snaps| && !local.snaps[i].partial :: local.snaps[i].id;
      var drop := BackupRepo.Listed(manifests.Keys - keep);
      if |drop| > MAX_DELETES {
        return false;
      }
      var unused := BackupRepo.Listed(blobs - live);
      ok := DropManifests(drop);
      if !ok {
        return;
      }
      assert forall id :: id in manifests <==> Wanted(local, id);
      ok := DropBlobs(unused, live);
    }
  }

  /** Ids are never given twice, so one catalog says what each complete snapshot refers to. */
  ghost predicate Catalogued(local: Local, catalog: string -> set<Sha>) {
    && (forall i, j :: 0 <= i < j < |local.snaps| ==> local.snaps[i].id != local.snaps[j].id)
    && (forall i :: 0 <= i < |local.snaps| && !local.snaps[i].partial ==> local.snaps[i].refs == catalog(local.snaps[i].id))
  }

  /**
   One mirror after another of a repository that changes in between, each of them cut
   anywhere: the remote stays closed throughout, and after the last one, if it succeeds,
   holds exactly what the repository then has.
   */
  method Runs(remote: Remote, locals: seq<Local>, ghost catalog: string -> set<Sha>) returns (ok: bool)
    requires remote.Closed() && forall id :: id in remote.manifests ==> remote.manifests[id] == catalog(id)
    requires forall k :: 0 <= k < |locals| ==> Catalogued(locals[k], catalog)
    modifies remote
    ensures remote.Closed() && forall id :: id in remote.manifests ==> remote.manifests[id] == catalog(id)
    ensures ok && locals != [] ==>
      var local := locals[|locals| - 1];
      && (forall id :: id in remote.manifests <==> Wanted(local, id))
      && (forall sha :: sha in remote.blobs <==> LiveLocally(local, sha))
  {
    ok := false;
    for k := 0 to |locals|
      invariant remote.Closed() && forall id :: id in remote.manifests ==> remote.manifests[id] == catalog(id)
      invariant ok && k > 0 ==>
        && (forall id :: id in remote.manifests <==> Wanted(locals[k - 1], id))
        && (forall sha :: sha in remote.blobs <==> LiveLocally(locals[k - 1], sha))
    {
      ok := remote.Run(locals[k]);
    }
  }

  lemma {:induction false} NoneDropped(log: seq<Action>)
    requires AtMost(log, 1)
    ensures Dropped(log) == 0
  {
    if log != [] {
      NoneDropped(log[..|log| - 1]);
    }
  }

  /** snapshotShas over the complete snapshots. */
  method LiveBlobs(local: Local) returns (live: set<Sha>)
    ensures forall sha :: sha in live <==> LiveLocally(local, sha)
  {
    live := {};
    for k := 0 to |local.snaps|
      invariant forall sha :: sha in live <==>
        exists i :: 0 <= i < k && !local.snaps[i].partial && sha in local.snaps[i].refs
    {
      if !local.snaps[k].partial {
        live := live + local.snaps[k].refs;
      }
    }
  }
}
