/** The persister: Raft state and snapshots in memory and in files, written so that a crash between
    any two disk operations leaves a state and the snapshot it needs. */
module Persistence {

  type Bytes = seq<bv8>

  datatype File = StateFile | SnapshotFile(index: int) | Tmp(of: File) | Other(name: string)

  /** The directory on disk. */
  type Files = map<File, Bytes>

  /** Reading a file; one that does not exist reads as nothing. */
  function Contents(files: Files, f: File): Bytes {
    if f in files then files[f] else []
  }

  /** The snapshot index in the state on disk; `indexIn` decodes it, no state means no snapshot. */
  function Named(indexIn: Bytes -> nat, files: Files): nat {
    var state := Contents(files, StateFile);
    if state == [] then 0 else indexIn(state)
  }

  /** The state on disk needs no snapshot, or exactly the bytes saved for its index are there. */
  ghost predicate Consistent(indexIn: Bytes -> nat, files: Files, saved: map<nat, Bytes>) {
    var i := Named(indexIn, files);
    i == 0 || (i in saved && SnapshotFile(i) in files && files[SnapshotFile(i)] == saved[i])
  }

  /** Temporary files do not matter. */
  lemma TmpKeeps(indexIn: Bytes -> nat, files: Files, f: File, data: Bytes, saved: map<nat, Bytes>)
    requires Consistent(indexIn, files, saved)
    ensures Consistent(indexIn, files[Tmp(f) := data], saved) && Consistent(indexIn, files - {Tmp(f)}, saved)
  {
    assert Contents(files[Tmp(f) := data], StateFile) == Contents(files, StateFile) == Contents(files - {Tmp(f)}, StateFile);
  }

  /** Saving a newer snapshot leaves the one named alone. */
  lemma NewerKeeps(indexIn: Bytes -> nat, files: Files, saved: map<nat, Bytes>, index: nat, data: Bytes)
    requires Consistent(indexIn, files, saved) && index > Named(indexIn, files)
    ensures Consistent(indexIn, files, saved[index := data])
    ensures Consistent(indexIn, files[SnapshotFile(index) := data], saved[index := data])
  {
    assert Contents(files[SnapshotFile(index) := data], StateFile) == Contents(files, StateFile);
  }

  /** Once a snapshot is there a state may name it. */
  lemma NamesNewer(indexIn: Bytes -> nat, files: Files, state: Bytes, saved: map<nat, Bytes>)
    requires state != [] && indexIn(state) in saved
    requires SnapshotFile(indexIn(state)) in files && files[SnapshotFile(indexIn(state))] == saved[indexIn(state)]
    ensures Consistent(indexIn, files[StateFile := state], saved)
    ensures forall f :: Named(indexIn, files[StateFile := state] - {Tmp(f)}) == indexIn(state)
  {
    forall f ensures Contents(files[StateFile := state] - {Tmp(f)}, StateFile) == state {}
  }

  predicate IsOlder(f: File, index: int) { f.SnapshotFile? && f.index < index }

  /** What a crash would find, and the snapshots saved by then. */
  datatype CrashPoint = CrashPoint(files: Files, saved: map<nat, Bytes>)

  ghost predicate AllSafe(indexIn: Bytes -> nat, points: seq<CrashPoint>) {
    forall k :: 0 <= k < |points| ==> Consistent(indexIn, points[k].files, points[k].saved)
  }

  /** The disks a write goes through: the temporary file grows byte by byte, then takes f's place. */
  ghost function WritePoints(files: Files, f: File, data: Bytes, saved: map<nat, Bytes>): (points: seq<CrashPoint>)
    ensures |points| == |data| + 2
  {
    seq(|data| + 1, j requires 0 <= j <= |data| => CrashPoint(files[Tmp(f) := data[..j]], saved))
    + [CrashPoint(files[f := data] - {Tmp(f)}, saved)]
  }

  /** A write is safe when the disks before and after it are. */
  lemma WriteSafe(indexIn: Bytes -> nat, files: Files, f: File, data: Bytes, saved: map<nat, Bytes>)
    requires Consistent(indexIn, files, saved) && Consistent(indexIn, files[f := data], saved)
    ensures AllSafe(indexIn, WritePoints(files, f, data, saved)) && Consistent(indexIn, files[f := data] - {Tmp(f)}, saved)
  {
    hide Consistent;
    forall j | 0 <= j <= |data| ensures Consistent(indexIn, files[Tmp(f) := data[..j]], saved) {
      TmpKeeps(indexIn, files, f, data[..j], saved);
    }
    TmpKeeps(indexIn, files[f := data], f, [], saved);
  }

  /** Some of the older snapshots are gone, nothing else. */
  ghost predicate Thinned(before: Files, files: Files, index: int) {
    && (forall f :: f in files ==> f in before && files[f] == before[f])
    && (forall f :: f in before && !IsOlder(f, index) ==> f in files)
  }

  lemma ThinnedSafe(indexIn: Bytes -> nat, before: Files, files: Files, index: int, saved: map<nat, Bytes>)
    requires Consistent(indexIn, before, saved) && Thinned(before, files, index) && index <= Named(indexIn, before)
    ensures Consistent(indexIn, files, saved) && Named(indexIn, files) == Named(indexIn, before)
  {
    assert Contents(files, StateFile) == Contents(before, StateFile);
  }

  /** The state file at a crash point is one of two. */
  ghost predicate OldOrNew(points: seq<CrashPoint>, from: nat, before: Bytes, after: Bytes) {
    forall k :: from <= k < |points| ==>
      Contents(points[k].files, StateFile) == before || Contents(points[k].files, StateFile) == after
  }

  /** Files after writing a snapshot, then the state, then removing older snapshots. */
  ghost predicate Written(zero: Files, one: Files, two: Files, state: Bytes, snapshot: Bytes, index: nat) {
    && one == zero[SnapshotFile(index) := snapshot] - {Tmp(SnapshotFile(index))}
    && two == one[StateFile := state] - {Tmp(StateFile)}
  }

  lemma FilesAfter(zero: Files, one: Files, two: Files, files: Files, state: Bytes, snapshot: Bytes, index: nat)
    requires Written(zero, one, two, state, snapshot, index)
    requires forall f :: f in files <==> f in two && !IsOlder(f, index)
    requires forall f :: f in files ==> files[f] == two[f]
    ensures Contents(files, StateFile) == state && Contents(files, SnapshotFile(index)) == snapshot
    ensures Contents(one, StateFile) == Contents(zero, StateFile) && Contents(two, StateFile) == state
    ensures Thinned(two, files, index)
  {
  }

  lemma WriteStates(points: seq<CrashPoint>, files: Files, f: File, data: Bytes, saved: map<nat, Bytes>, before: Bytes, after: Bytes)
    requires Contents(files, StateFile) == before && (f == StateFile ==> data == after) && (f == StateFile || f.SnapshotFile?)
    requires OldOrNew(points, 0, before, after)
    ensures OldOrNew(points + WritePoints(files, f, data, saved), 0, before, after)
  {
    var w := WritePoints(files, f, data, saved);
    forall k | 0 <= k < |w| ensures Contents(w[k].files, StateFile) == before || Contents(w[k].files, StateFile) == after {
      if k <= |data| { assert w[k].files == files[Tmp(f) := data[..k]]; }
    }
  }

  /** The three stages of a save as the points they add. */
  ghost predicate Stages(start: seq<CrashPoint>, written: seq<CrashPoint>, points: seq<CrashPoint>, zero: Files, one: Files, two: Files,
                         saved: map<nat, Bytes>, state: Bytes, snapshot: Bytes, index: nat) {
    && written == start + WritePoints(zero, SnapshotFile(index), snapshot, saved) + WritePoints(one, StateFile, state, saved)
    && written <= points
    && forall k :: |written| <= k < |points| ==> points[k].saved == saved && Thinned(two, points[k].files, index)
  }

  lemma SaveStates(start: seq<CrashPoint>, written: seq<CrashPoint>, points: seq<CrashPoint>, zero: Files, one: Files, two: Files,
                   saved: map<nat, Bytes>, state: Bytes, snapshot: Bytes, index: nat)
    requires Stages(start, written, points, zero, one, two, saved, state, snapshot, index)
    requires Contents(one, StateFile) == Contents(zero, StateFile) && Contents(two, StateFile) == state
    ensures OldOrNew(points, |start|, Contents(zero, StateFile), state)
  {
    hide WritePoints;
    var before := Contents(zero, StateFile);
    var w1 := WritePoints(zero, SnapshotFile(index), snapshot, saved);
    var w2 := WritePoints(one, StateFile, state, saved);
    WriteStates([], zero, SnapshotFile(index), snapshot, saved, before, state);
    assert [] + w1 == w1;
    WriteStates(w1, one, StateFile, state, saved, before, state);
    forall k | |start| <= k < |points| ensures Contents(points[k].files, StateFile) == before || Contents(points[k].files, StateFile) == state {
      if k < |written| {
        assert points[k] == written[k] == (w1 + w2)[k - |start|];
      } else {
        assert Thinned(two, points[k].files, index);
      }
    }
  }

  lemma SaveSafe(indexIn: Bytes -> nat, start: seq<CrashPoint>, written: seq<CrashPoint>, points: seq<CrashPoint>,
                 zero: Files, one: Files, two: Files, saved: map<nat, Bytes>, state: Bytes, snapshot: Bytes, index: nat)
    requires Stages(start, written, points, zero, one, two, saved[index := snapshot], state, snapshot, index)
    requires Written(zero, one, two, state, snapshot, index)
    requires AllSafe(indexIn, start) && Consistent(indexIn, zero, saved)
    requires state != [] && indexIn(state) == index && index > Named(indexIn, zero)
    ensures AllSafe(indexIn, points) && Consistent(indexIn, two, saved[index := snapshot]) && Named(indexIn, two) == index
  {
    hide Consistent, WritePoints, Thinned;
    var saved' := saved[index := snapshot];
    NewerKeeps(indexIn, zero, saved, index, snapshot);
    WriteSafe(indexIn, zero, SnapshotFile(index), snapshot, saved');
    NamesNewer(indexIn, one, state, saved');
    WriteSafe(indexIn, one, StateFile, state, saved');
    assert Named(indexIn, one[StateFile := state] - {Tmp(StateFile)}) == indexIn(state);
    hide Named;
    var w1, w2 := WritePoints(zero, SnapshotFile(index), snapshot, saved'), WritePoints(one, StateFile, state, saved');
    forall k | 0 <= k < |points| ensures Consistent(indexIn, points[k].files, points[k].saved) {
      if k < |start| {
        assert points[k] == written[k] == start[k];
      } else if k < |start| + |w1| {
        assert points[k] == written[k] == w1[k - |start|];
      } else if k < |written| {
        assert points[k] == written[k] == w2[k - |start| - |w1|];
      } else {
        ThinnedSafe(indexIn, two, points[k].files, index, saved');
      }
    }
  }

  lemma FinalSafe(indexIn: Bytes -> nat, two: Files, files: Files, saved: map<nat, Bytes>, index: nat)
    requires Consistent(indexIn, two, saved) && Named(indexIn, two) == index && Thinned(two, files, index)
    ensures Consistent(indexIn, files, saved) && Named(indexIn, files) == index
  {
    ThinnedSafe(indexIn, two, files, index, saved);
  }

  class Persister {
    ghost const indexIn: Bytes -> nat
    var raftstate: Bytes
    var snapshot: Bytes
    var raftStateMemSynced: bool
    var snapshotInMemSynced: bool
    var files: Files
    ghost var saved: map<nat, Bytes>
    ghost var crashPoints: seq<CrashPoint>  // one for every disk operation done

    /** Copies in memory marked as synced are what the disk would return. */
    ghost predicate Synced()
      reads this
    {
      && (raftStateMemSynced ==> raftstate == Contents(files, StateFile))
      && (snapshotInMemSynced ==> snapshot == Contents(files, SnapshotFile(Named(indexIn, files))))
    }

    /** Every crash so far would have been, and a crash now is, harmless. */
    ghost predicate Valid()
      reads this
    {
      AllSafe(indexIn, crashPoints) && Synced() && Consistent(indexIn, files, saved)
    }

    /** Starting, for the first time or after a crash, over whatever files are there. */
    constructor MakePersister(files: Files, ghost indexIn: Bytes -> nat, ghost saved: map<nat, Bytes>)
      ensures this.files == files && this.indexIn == indexIn && this.saved == saved && crashPoints == []
      ensures Consistent(indexIn, files, saved) ==> Valid()
    {
      this.files, this.indexIn, this.saved := files, indexIn, saved;
      raftstate, snapshot, raftStateMemSynced, snapshotInMemSynced := [], [], false, false;
      crashPoints := [];
    }

    // ----- disk operations; each is one step, a write is one for every byte

    ghost method Record()
      modifies this`crashPoints
      ensures crashPoints == old(crashPoints) + [CrashPoint(files, saved)]
    {
      crashPoints := crashPoints + [CrashPoint(files, saved)];
    }

    method MustWriteFile(f: File, data: Bytes)
      requires !f.Tmp?
      modifies this`files, this`crashPoints
      ensures files == old(files)[f := data] - {Tmp(f)}
      ensures crashPoints == old(crashPoints) + WritePoints(old(files), f, data, saved)
    {
      ghost var before, points := files, WritePoints(files, f, data, saved);
      var tmp := Tmp(f);
      files := files[tmp := []];
      Record();
      assert crashPoints == old(crashPoints) + points[..1];
      for i := 0 to |data|
        invariant files == before[tmp := data[..i]] && crashPoints == old(crashPoints) + points[..i + 1]
      {
        files := files[tmp := data[..i + 1]];
        assert files == before[tmp := data[..i + 1]];
        Record();
        assert points[..i + 2] == points[..i + 1] + [points[i + 1]];
      }
      assert data[..|data|] == data;
      files := files[f := files[tmp]] - {tmp};
      assert files == before[f := data] - {tmp};
      Record();
      assert points == points[..|data| + 1] + [points[|data| + 1]];
    }

    /** Removes the snapshots with a smaller index, in any order. */
    method CleanOlderSnapshot(lastIncludedIndex: int)
      modifies this`files, this`crashPoints
      ensures forall f :: f in files <==> f in old(files) && !IsOlder(f, lastIncludedIndex)
      ensures forall f :: f in files ==> files[f] == old(files)[f]
      ensures old(crashPoints) <= crashPoints
      ensures forall k :: |old(crashPoints)| <= k < |crashPoints| ==>
        crashPoints[k].saved == saved && Thinned(old(files), crashPoints[k].files, lastIncludedIndex)
    {
      hide IsOlder;
      var fileList := files.Keys;
      while fileList != {}
        invariant old(crashPoints) <= crashPoints
        invariant forall f :: f in files <==> f in old(files) && (f in fileList || !IsOlder(f, lastIncludedIndex))
        invariant forall f :: f in files ==> files[f] == old(files)[f]
        invariant forall k :: |old(crashPoints)| <= k < |crashPoints| ==>
          crashPoints[k].saved == saved && Thinned(old(files), crashPoints[k].files, lastIncludedIndex)
        decreases |fileList|
      {
        var file :| file in fileList;
        fileList := fileList - {file};
        if IsOlder(file, lastIncludedIndex) {
          files := files - {file};
          Record();
        }
      }
    }

    // ----- the persister's own methods

    /** Saves the Raft state alone: safe when it names the snapshot that is already there. */
    method SaveRaftState(state: Bytes)
      modifies this`raftstate, this`raftStateMemSynced, this`files, this`crashPoints
      ensures files == old(files)[StateFile := state] - {Tmp(StateFile)} && raftStateMemSynced && raftstate == state
      ensures crashPoints == old(crashPoints) + WritePoints(old(files), StateFile, state, saved)
      ensures OldOrNew(crashPoints, |old(crashPoints)|, old(Contents(files, StateFile)), state)
      ensures old(Valid()) && Named(indexIn, files) == old(Named(indexIn, files)) ==> Valid()
    {
      raftstate, raftStateMemSynced := state, true;
      MustWriteFile(StateFile, raftstate);
      if old(Valid()) && Named(indexIn, files) == old(Named(indexIn, files)) {
        StateNames(indexIn, old(files), state, saved);
        WriteSafe(indexIn, old(files), StateFile, state, saved);
      }
    }

    /** Saves a snapshot and the state that names it: first the snapshot, then the state, and only then
        are older snapshots removed. Safe for a newer index that the state names. */
    method SaveStateAndSnapshot(state: Bytes, snapshot: Bytes, lastIncludedIndex: nat)
      modifies this
      ensures saved == old(saved)[lastIncludedIndex := snapshot]
      ensures Contents(files, StateFile) == state && Contents(files, SnapshotFile(lastIncludedIndex)) == snapshot
      ensures forall f :: f in files && f.SnapshotFile? ==> f.index >= lastIncludedIndex
      ensures raftStateMemSynced && raftstate == state && snapshotInMemSynced && this.snapshot == snapshot
      ensures var file := SnapshotFile(lastIncludedIndex);
        old(crashPoints) + WritePoints(old(files), file, snapshot, saved)
        + WritePoints(old(files)[file := snapshot] - {Tmp(file)}, StateFile, state, saved) <= crashPoints
      ensures OldOrNew(crashPoints, |old(crashPoints)|, old(Contents(files, StateFile)), state)
      ensures old(Valid()) && state != [] && indexIn(state) == lastIncludedIndex && lastIncludedIndex > old(Named(indexIn, files))
        ==> Valid() && Named(indexIn, files) == lastIncludedIndex
    {
      hide Consistent, AllSafe, Named, OldOrNew, Thinned, WritePoints;
      ghost var zero := files;
      raftstate, this.snapshot := state, snapshot;
      raftStateMemSynced, snapshotInMemSynced := true, true;
      saved := saved[lastIncludedIndex := snapshot];
      MustWriteFile(SnapshotFile(lastIncludedIndex), this.snapshot);
      ghost var one := files;
      MustWriteFile(StateFile, raftstate);
      ghost var two, written := files, crashPoints;
      CleanOlderSnapshot(lastIncludedIndex);
      FilesAfter(zero, one, two, files, state, snapshot, lastIncludedIndex);
      SaveStates(old(crashPoints), written, crashPoints, zero, one, two, saved, state, snapshot, lastIncludedIndex);
      if old(Valid()) && state != [] && indexIn(state) == lastIncludedIndex && lastIncludedIndex > old(Named(indexIn, files)) {
        SaveSafe(indexIn, old(crashPoints), written, crashPoints, zero, one, two, old(saved), state, snapshot, lastIncludedIndex);
        FinalSafe(indexIn, two, files, saved, lastIncludedIndex);
      }
    }

    /** What is on disk, or what memory holds when it is marked as synced. */
    method ReadRaftState() returns (state: Bytes)
      modifies this`raftstate, this`raftStateMemSynced
      ensures state == if old(raftStateMemSynced) then old(raftstate) else Contents(files, StateFile)
      ensures old(Valid()) ==> Valid() && state == Contents(files, StateFile)
    {
      if !raftStateMemSynced {
        raftStateMemSynced := true;
        raftstate := Contents(files, StateFile);
      }
      state := raftstate;
    }

    /** The same for the snapshot; asked for the index the state names, it gives the bytes saved for it. */
    method ReadSnapshot(lastIncludedIndex: nat) returns (data: Bytes)
      modifies this`snapshot, this`snapshotInMemSynced
      ensures data == if old(snapshotInMemSynced) then old(snapshot) else Contents(files, SnapshotFile(lastIncludedIndex))
      ensures old(Valid()) && lastIncludedIndex == Named(indexIn, files) ==>
        && Valid() && data == Contents(files, SnapshotFile(lastIncludedIndex))
        && (lastIncludedIndex > 0 ==> lastIncludedIndex in saved && data == saved[lastIncludedIndex])
    {
      if !snapshotInMemSynced {
        snapshotInMemSynced := true;
        snapshot := Contents(files, SnapshotFile(lastIncludedIndex));
      }
      data := snapshot;
    }
  }

  /** A state that names the index the one before it named. */
  lemma StateNames(indexIn: Bytes -> nat, files: Files, state: Bytes, saved: map<nat, Bytes>)
    requires Consistent(indexIn, files, saved)
    requires Named(indexIn, files[StateFile := state] - {Tmp(StateFile)}) == Named(indexIn, files)
    ensures Consistent(indexIn, files[StateFile := state], saved)
  {
    assert Contents(files[StateFile := state], StateFile) == Contents(files[StateFile := state] - {Tmp(StateFile)}, StateFile);
  }

  /** A crash at any recorded point: the persister started over the files found reads their state,
      and for the index in it exactly the bytes saved for that index. */
  method Recover(files: Files, ghost p: Persister, ghost k: nat) returns (q: Persister, state: Bytes)
    requires p.Valid() && k < |p.crashPoints| && files == p.crashPoints[k].files
    ensures fresh(q) && q.Valid() && state == Contents(files, StateFile) && q.files == files
    ensures q.indexIn == p.indexIn && q.saved == p.crashPoints[k].saved
    ensures state != [] && p.indexIn(state) > 0 ==>
      var i := p.indexIn(state); i in q.saved && Contents(q.files, SnapshotFile(i)) == q.saved[i]
  {
    q := new Persister.MakePersister(files, p.indexIn, p.crashPoints[k].saved);
    state := q.ReadRaftState();
  }
}
