/** The stage, verify, rename, re-verify publication protocol `ExactBundle` of
    benches/m1/d10_observations.rs, with outside changes between all steps. */
module ExactBundle {
  import opened Octets
  import opened Outcomes
  import opened Disk

  datatype StagedFile = StagedFile(name: Name, bytes: Bytes, ino: Ino, snapshot: Stat)

  /** Effective user and group of the publisher. */
  datatype Owner = Owner(uid: nat, gid: nat)

  const PERMISSIONS: nat := 0x1000    // mode & 0o7777 keeps twelve bits
  const FILE_MODE: nat := 384         // 0o600
  const DIRECTORY_MODE: nat := 448    // 0o700

  /** No write bit for group or others: mode & 0o022 == 0. */
  predicate NotShared(mode: nat) {
    (mode / 2) % 2 == 0 && (mode / 16) % 2 == 0
  }

  predicate CreatedFileOk(s: Stat, size: nat, o: Owner) {
    !s.isDir && s.mode % PERMISSIONS == FILE_MODE && s.nlink == 1 && s.uid == o.uid && s.gid == o.gid && s.size == size
  }

  predicate ControlledDirectory(s: Stat, o: Owner) {
    s.isDir && s.uid == o.uid && s.gid == o.gid && NotShared(s.mode)
  }

  predicate AdoptedDirectory(s: Stat, o: Owner) {
    s.isDir && s.mode % PERMISSIONS == DIRECTORY_MODE && s.uid == o.uid && s.gid == o.gid
  }

  /** `same_directory_identity`: everything but the change time. */
  predicate SameDirectoryIdentity(a: Stat, b: Stat) {
    a == b.(version := a.version)
  }

  /** `validate_directory_transition`: identity and control metadata. */
  predicate SameControl(a: Stat, b: Stat) {
    a.ino == b.ino && a.isDir == b.isDir && a.mode == b.mode && a.nlink == b.nlink && a.uid == b.uid && a.gid == b.gid
  }

  function Minimum(a: nat, b: nat): nat { if a <= b then a else b }

  function SetOf(names: seq<Name>): set<Name> { set n | n in names }

  /** The staged inode carries the expected bytes under its name in `dir`. */
  predicate HoldsFile(fs: FileSystem, dir: Ino, f: StagedFile) {
    && Bound(fs, dir, f.name, f.ino) && IsFile(fs, f.ino) && fs.nodes[f.ino].node.bytes == f.bytes
  }

  /** `dir` has exactly the names of the roster, and the staged files under theirs. */
  predicate Complete(fs: FileSystem, dir: Ino, roster: seq<Name>, files: seq<StagedFile>, n: nat) {
    && IsDir(fs, dir) && fs.nodes[dir].node.entries.Keys == SetOf(roster)
    && n <= |files| && forall i :: 0 <= i < n ==> HoldsFile(fs, dir, files[i])
  }

  /** The staged inode is as it was when it was recorded. */
  predicate Unchanged(fs: FileSystem, f: StagedFile) {
    IsFile(fs, f.ino) && StatOf(fs, f.ino) == f.snapshot && fs.nodes[f.ino].node.bytes == f.bytes
  }

  /** What `verify_directory` asks of a directory, at one moment. */
  predicate Verified(fs: FileSystem, dir: Ino, roster: seq<Name>, files: seq<StagedFile>, expected: seq<(Name, Bytes)>) {
    && IsDir(fs, dir) && fs.nodes[dir].node.entries.Keys == SetOf(roster)
    && forall i :: 0 <= i < Minimum(|expected|, |files|) ==>
         && files[i].name == expected[i].0 && files[i].bytes == expected[i].1
         && Unchanged(fs, files[i]) && Bound(fs, dir, files[i].name, files[i].ino)
  }

  /** At some moment of the history the inode had the snapshot and held the bytes. */
  ghost predicate Recorded(history: seq<FileSystem>, f: StagedFile) {
    exists w :: 0 <= w < |history| && RecordedAt(history, f, w)
  }

  ghost predicate RecordedAt(history: seq<FileSystem>, f: StagedFile, w: nat)
    requires w < |history|
  {
    Unchanged(history[w], f)
  }

  lemma RecordedStays(history: seq<FileSystem>, longer: seq<FileSystem>, f: StagedFile)
    requires history <= longer && Recorded(history, f)
    ensures Recorded(longer, f)
  {
    var w :| 0 <= w < |history| && RecordedAt(history, f, w);
    assert longer[w] == history[w] && RecordedAt(longer, f, w);
  }

  /** The publisher made this inode under this name. */
  ghost predicate MadeHere(actions: seq<(FileSystem, Action)>, dir: Ino, name: Name, ino: Ino) {
    exists k :: 0 <= k < |actions| && actions[k].1.Make?
                && actions[k].1.dir == dir && actions[k].1.name == name && actions[k].1.ino == ino
  }

  /** A file whose snapshot was taken by moment `w` and is found unchanged at `u`,
      with the bytes and the binding seen there, had both at every moment between. */
  lemma FileWasThere(history: seq<FileSystem>, w: nat, t: nat, u: nat, dir: Ino, f: StagedFile)
    requires Chronicle(history) && w <= t <= u < |history|
    requires RecordedAt(history, f, w) && RecordedAt(history, f, u)
    requires HoldsFile(history[u], dir, f)
    ensures HoldsFile(history[t], dir, f)
  {
    hide Chronicle;
    Frozen(history, w, t, u, f.ino);
    LinkIsBinding(history, u, dir, f.name, f.ino);
    LinkIsBinding(history, t, dir, f.name, f.ino);
  }

  /** From `from` on, the directory bound the name to the inode at some moment before
      the state `found`. */
  ghost predicate SeenBefore(history: seq<FileSystem>, from: nat, found: FileSystem, dir: Ino, name: Name, ino: Ino) {
    exists k, j :: from <= k < j < |history| && Bound(history[k], dir, name, ino) && history[j] == found
  }

  /** From `from` on there was a moment at which the name did not lead to the inode. */
  ghost predicate SeenUnbound(history: seq<FileSystem>, from: nat, dir: Ino, name: Name, ino: Ino) {
    exists k :: from <= k < |history| && !Bound(history[k], dir, name, ino)
  }

  lemma UnboundStays(history: seq<FileSystem>, longer: seq<FileSystem>, from: nat, from': nat, dir: Ino, name: Name, ino: Ino)
    requires history <= longer && from' <= from && SeenUnbound(history, from, dir, name, ino)
    ensures SeenUnbound(longer, from', dir, name, ino)
  {
    var k :| from <= k < |history| && !Bound(history[k], dir, name, ino);
    assert longer[k] == history[k];
  }

  lemma SeenStays(history: seq<FileSystem>, longer: seq<FileSystem>, from: nat, from': nat, found: FileSystem, dir: Ino,
                  name: Name, ino: Ino)
    requires history <= longer && from' <= from && SeenBefore(history, from, found, dir, name, ino)
    ensures SeenBefore(longer, from', found, dir, name, ino)
  {
    var k, j :| from <= k < j < |history| && Bound(history[k], dir, name, ino) && history[j] == found;
    assert longer[k] == history[k] && longer[j] == history[j];
  }

  /** An empty directory was made in the parent under this name. */
  ghost predicate MadeStaging(log: (FileSystem, Action), parent: Ino, name: Name) {
    Enabled(log.0, log.1) && log.1.Make? && log.1.dir == parent && log.1.name == name && log.1.born.node == Dir(map[])
  }

  datatype Filled = Uninspected | Rejected | Staged(file: StagedFile)

  class Bundle {
    const volume: Volume
    const owner: Owner
    const roster: seq<Name>
    const parent: Ino
    const outputName: Name
    const staging: Ino
    const stagingName: Name
    const parentSnapshot: Stat
    ghost const start: nat    // how many own changes there were before this bundle
    var armed: bool
    var files: seq<StagedFile>
    var stagingSnapshot: Stat

    ghost predicate Valid()
      reads this, volume
    {
      && volume.Valid()
      && parent in volume.fs.nodes && staging in volume.fs.nodes && parent != staging
      && OwnSince(volume.actions)
      && (forall i :: 0 <= i < |files| ==>
            && files[i].ino in volume.fs.nodes
            && files[i].name in roster
            && Recorded(volume.history, files[i])
            && MadeHere(volume.actions, staging, files[i].name, files[i].ino))
    }

    /** The changes a bundle makes: its staging directory, files in that directory, their
        contents, the one rename, and the removal of names from the staging directory. */
    ghost predicate OwnAction(log: (FileSystem, Action)) {
      && Enabled(log.0, log.1)
      && match log.1
         case Make(dir, name, _, born) => (dir == parent && name == stagingName && born.node.Dir?) || dir == staging
         case Overwrite(_, _, _) => true
         case Rename(dir, from, to, _) => dir == parent && from == stagingName && to == outputName
         case Unlink(dir, _, _) => dir == staging
    }

    ghost predicate OwnSince(actions: seq<(FileSystem, Action)>) {
      start <= |actions| && forall k :: start <= k < |actions| ==> OwnAction(actions[k])
    }

    constructor Adopt(volume: Volume, owner: Owner, roster: seq<Name>, parent: Ino, outputName: Name,
                      staging: Ino, stagingName: Name, parentSnapshot: Stat, stagingSnapshot: Stat, ghost start: nat)
      requires volume.Valid() && parent in volume.fs.nodes && staging in volume.fs.nodes && parent != staging
      requires start <= |volume.actions|
      requires forall k :: start <= k < |volume.actions| ==> MadeStaging(volume.actions[k], parent, stagingName)
      ensures Valid() && armed && files == [] && this.start == start
      ensures this.parentSnapshot == parentSnapshot && this.stagingSnapshot == stagingSnapshot
      ensures this.volume == volume && this.roster == roster && this.owner == owner
      ensures this.parent == parent && this.outputName == outputName
      ensures this.staging == staging && this.stagingName == stagingName
    {
      this.volume, this.owner, this.roster := volume, owner, roster;
      this.parent, this.outputName, this.staging, this.stagingName := parent, outputName, staging, stagingName;
      this.parentSnapshot, this.stagingSnapshot, this.start := parentSnapshot, stagingSnapshot, start;
      armed, files := true, [];
    }

    // ---- verification steps

    /** `verify_held_file`. */
    method VerifyHeld(f: StagedFile) returns (ok: bool)
      requires volume.Valid() && f.ino in volume.fs.nodes
      modifies volume
      ensures volume.Observed()
      ensures ok ==> && IsFile(volume.fs, f.ino) && volume.fs.nodes[f.ino].node.bytes == f.bytes
                     && RecordedAt(volume.history, f, |volume.history| - 1)
      ensures volume.Quiet() ==> (ok <==> Unchanged(volume.fs, f))
    {
      hide Chronicle;
      var initial := volume.Fstat(f.ino);
      if initial != Some(f.snapshot) {
        return false;
      }
      ghost var first := |volume.history| - 1;
      var bytes := volume.Read(f.ino, |f.bytes| + 1);
      if bytes.None? {
        return false;
      }
      ghost var middle := |volume.history| - 1;
      var final := volume.Fstat(f.ino);
      if bytes.value != f.bytes || final != Some(f.snapshot) {
        return false;
      }
      Frozen(volume.history, first, middle, |volume.history| - 1, f.ino);
      ok := true;
    }

    /** `rebind_directory`: the name leads to the held directory, unchanged. */
    method RebindDirectory(name: Name, expected: Stat) returns (ok: bool, ghost at: nat, ghost inspected: nat)
      requires Valid()
      modifies volume
      ensures Valid() && volume.Observed() && files == old(files)
      ensures ok ==> && |old(volume.history)| <= at < inspected < |volume.history| - 1
                     && Bound(volume.history[at], parent, name, staging)
                     && staging in volume.history[inspected].nodes && StatOf(volume.history[inspected], staging) == expected
                     && StatOf(volume.fs, staging) == expected
      ensures volume.Quiet() ==>
                (ok <==> && Bound(volume.fs, parent, name, staging) && IsDir(volume.fs, staging)
                         && StatOf(volume.fs, staging) == expected)
    {
      hide Chronicle, Evolves;
      at, inspected := 0, 0;
      ghost var before := volume.history;
      var directory := volume.OpenAt(parent, name, true);
      if directory.None? {
        StaysValid(before);
        return false, at, inspected;
      }
      at := |volume.history| - 1;
      Remembered(volume.history, |before| - 1, at, staging);
      var held := volume.Fstat(staging);
      inspected := |volume.history| - 1;
      Remembered(volume.history, at, |volume.history| - 1, directory.value);
      var rebound := volume.Fstat(directory.value);
      StaysValid(before);
      ok := held == Some(expected) && rebound == Some(expected);
    }

    /** Time passing keeps the bundle valid. */
    lemma StaysValid(before: seq<FileSystem>)
      requires volume.Valid() && before != [] && before <= volume.history
      requires parent in before[|before| - 1].nodes && staging in before[|before| - 1].nodes && parent != staging
      requires OwnSince(volume.actions)
      requires forall i :: 0 <= i < |files| ==>
                 && files[i].ino in before[|before| - 1].nodes && files[i].name in roster
                 && Recorded(before, files[i])
                 && MadeHere(volume.actions, staging, files[i].name, files[i].ino)
      ensures Valid()
    {
      hide Chronicle, Recorded, OwnAction;
      var now := |volume.history| - 1;
      Remembered(volume.history, |before| - 1, now, parent);
      Remembered(volume.history, |before| - 1, now, staging);
      forall i | 0 <= i < |files|
        ensures files[i].ino in volume.fs.nodes && Recorded(volume.history, files[i])
      {
        Remembered(volume.history, |before| - 1, now, files[i].ino);
        RecordedStays(before, volume.history, files[i]);
      }
    }

    /** One step of `verify_directory`, for a file whose snapshot was taken before the
        moment `t` at which the roster was read: the file was in place then. */
    method VerifyBinding(directory: Ino, f: StagedFile, ghost w: nat, ghost t: nat) returns (ok: bool)
      requires volume.Valid() && f.ino in volume.fs.nodes && directory in volume.fs.nodes
      requires w <= t < |volume.history| && RecordedAt(volume.history, f, w)
      modifies volume
      ensures volume.Observed()
      ensures ok ==> HoldsFile(volume.history[t], directory, f)
      ensures volume.Quiet() ==> (ok <==> Unchanged(volume.fs, f) && Bound(volume.fs, directory, f.name, f.ino))
    {
      hide Chronicle;
      ghost var before := |volume.history| - 1;
      var held := VerifyHeld(f);
      if !held {
        return false;
      }
      ghost var checked := |volume.history| - 1;
      Remembered(volume.history, before, checked, directory);
      var rebound := volume.OpenAt(directory, f.name, false);
      if rebound.None? {
        return false;
      }
      ghost var found := |volume.history| - 1;
      var stat := volume.Fstat(rebound.value);
      if stat != Some(f.snapshot) {
        return false;
      }
      ghost var now := |volume.history| - 1;
      Frozen(volume.history, checked, found, now, f.ino);
      Frozen(volume.history, w, found, now, f.ino);
      FileWasThere(volume.history, w, t, found, directory, f);
      ok := true;
    }

    /** `verify_directory`.  On success there was one moment, when the roster was read,
        at which the directory was complete. */
    method VerifyDirectory(directory: Ino, expected: seq<(Name, Bytes)>) returns (ok: bool, ghost t: nat)
      requires Valid() && directory in volume.fs.nodes
      modifies volume
      ensures Valid() && volume.Observed() && files == old(files)
      ensures ok ==>
                && |old(volume.history)| <= t < |volume.history|
                && Complete(volume.history[t], directory, roster, files, Minimum(|expected|, |files|))
                && forall i :: 0 <= i < Minimum(|expected|, |files|) ==>
                     files[i].name == expected[i].0 && files[i].bytes == expected[i].1
      ensures volume.Quiet() ==> (ok <==> Verified(volume.fs, directory, roster, files, expected))
    {
      hide Chronicle, Recorded, HoldsFile, Unchanged, OwnSince, Bound;
      ghost var before := volume.history;
      t := 0;
      var names := volume.Names(directory);
      StaysValid(before);
      if names != Some(SetOf(roster)) {
        return false, t;
      }
      t := |volume.history| - 1;
      ok := VerifyFiles(directory, expected, before, t);
    }

    /** Each expected entry matches the staged file at its place. */
    predicate Matching(expected: seq<(Name, Bytes)>, n: nat)
      requires n <= |expected| && n <= |files|
      reads this
    {
      forall i :: 0 <= i < n ==> files[i].name == expected[i].0 && files[i].bytes == expected[i].1
    }

    predicate InPlace(fs: FileSystem, directory: Ino, n: nat)
      requires n <= |files|
      reads this
    {
      forall i :: 0 <= i < n ==> Unchanged(fs, files[i]) && Bound(fs, directory, files[i].name, files[i].ino)
    }

    /** Its loop, after the names were listed at the moment `t`. */
    method VerifyFiles(directory: Ino, expected: seq<(Name, Bytes)>, ghost before: seq<FileSystem>, ghost t: nat) returns (ok: bool)
      requires Valid() && directory in volume.fs.nodes
      requires |before| <= t < |volume.history| && before <= volume.history
      requires forall i :: 0 <= i < |files| ==> Recorded(before, files[i])
      modifies volume
      ensures Valid() && files == old(files) && volume.actions == old(volume.actions) && volume.Onward()
      ensures old(volume.history) <= volume.history && (volume.changes == old(volume.changes) ==> volume.fs == old(volume.fs))
      ensures var n := Minimum(|expected|, |files|);
              ok ==> Matching(expected, n) && forall k :: 0 <= k < n ==> HoldsFile(volume.history[t], directory, files[k])
      ensures var n := Minimum(|expected|, |files|);
              volume.Quiet() ==> (ok <==> Matching(expected, n) && InPlace(volume.fs, directory, n))
    {
      hide Chronicle, Recorded, HoldsFile, Unchanged, OwnSince, Bound;
      var n := Minimum(|expected|, |files|);
      for i := 0 to n
        invariant Valid() && old(volume.history) <= volume.history && volume.actions == old(volume.actions) && files == old(files)
        invariant volume.Onward() && (volume.changes == old(volume.changes) ==> volume.fs == old(volume.fs))
        invariant volume.Quiet() ==> InPlace(volume.fs, directory, i)
        invariant directory in volume.fs.nodes && Matching(expected, i)
        invariant forall k :: 0 <= k < i ==> HoldsFile(volume.history[t], directory, files[k])
      {
        if files[i].name != expected[i].0 || files[i].bytes != expected[i].1 {
          return false;
        }
        ghost var mark := volume.history;
        ghost var w := RecordedBefore(before, mark, files[i]);
        var bound := VerifyBinding(directory, files[i], w, t);
        StaysValid(mark);
        Remembered(volume.history, |mark| - 1, |volume.history| - 1, directory);
        if !bound {
          return false;
        }
      }
      ok := true;
    }

    // ---- publication

    /** `validate_parent`. */
    method ValidateParent(expected: Stat) returns (ok: bool)
      requires Valid()
      modifies volume
      ensures Valid() && volume.Observed()
      ensures ok ==> StatOf(volume.fs, parent) == expected && ControlledDirectory(expected, owner)
      ensures volume.Quiet() ==> (ok <==> StatOf(volume.fs, parent) == expected && ControlledDirectory(expected, owner))
    {
      hide Chronicle, Recorded;
      ghost var before := volume.history;
      var current := volume.Fstat(parent);
      StaysValid(before);
      ok := current == Some(expected) && ControlledDirectory(expected, owner);
    }

    /** `rebind_published_directory`: the output name leads to the held directory. */
    method RebindPublished(expected: Stat) returns (ok: bool, ghost at: nat, ghost inspected: nat)
      requires Valid() && expected.ino == staging
      modifies volume
      ensures Valid() && volume.Observed()
      ensures ok ==> && |old(volume.history)| <= at < inspected < |volume.history| - 1
                     && Bound(volume.history[at], parent, outputName, staging)
                     && staging in volume.history[inspected].nodes
                     && SameDirectoryIdentity(expected, StatOf(volume.history[inspected], staging))
                     && SameDirectoryIdentity(expected, StatOf(volume.fs, staging))
      ensures volume.Quiet() ==>
                (ok <==> && Bound(volume.fs, parent, outputName, staging) && IsDir(volume.fs, staging)
                         && SameDirectoryIdentity(expected, StatOf(volume.fs, staging)))
    {
      hide Chronicle, Recorded, Evolves;
      at, inspected := 0, 0;
      ghost var before := volume.history;
      var directory := volume.OpenAt(parent, outputName, true);
      StaysValid(before);
      if directory.None? {
        return false, at, inspected;
      }
      at := |volume.history| - 1;
      var held := volume.Fstat(staging);
      StaysValid(before);
      if held.None? {
        return false, at, inspected;
      }
      inspected := |volume.history| - 1;
      Remembered(volume.history, at, |volume.history| - 1, directory.value);
      var rebound := volume.Fstat(directory.value);
      StaysValid(before);
      ok := rebound.Some? && SameDirectoryIdentity(expected, held.value) && SameDirectoryIdentity(expected, rebound.value);
    }

    /** A hook, an `fsync` or the revalidation of inputs. */
    method Wait() returns (ok: bool)
      requires Valid()
      modifies volume
      ensures Valid() && volume.Observed() && (volume.Quiet() ==> ok)
    {
      hide Chronicle, Recorded;
      ghost var before := volume.history;
      ok := volume.Pause();
      StaysValid(before);
    }

    method InspectStaging() returns (r: Option<Stat>)
      requires Valid()
      modifies volume
      ensures Valid() && volume.Observed()
      ensures r.Some? ==> r.value == StatOf(volume.fs, staging)
      ensures volume.Quiet() ==> r.Some?
    {
      hide Chronicle, Recorded;
      ghost var before := volume.history;
      r := volume.Fstat(staging);
      StaysValid(before);
    }

    method InspectParent() returns (r: Option<Stat>)
      requires Valid()
      modifies volume
      ensures Valid() && volume.Observed()
      ensures r.Some? ==> r.value == StatOf(volume.fs, parent)
      ensures volume.Quiet() ==> r.Some?
    {
      hide Chronicle, Recorded;
      ghost var before := volume.history;
      r := volume.Fstat(parent);
      StaysValid(before);
    }

    /** The staging name leads to the held directory, which has the exact mode and owner. */
    ghost predicate Named(fs: FileSystem) {
      Bound(fs, parent, stagingName, staging) && IsDir(fs, staging) && AdoptedDirectory(StatOf(fs, staging), owner)
    }

    /** Everything `publish_exact` does before the rename.  On success the staged
        directory was complete at the moment `staged`. */
    method Settle(expected: seq<(Name, Bytes)>) returns (r: Option<Stat>, ghost named: nat, ghost staged: nat)
      requires Valid()
      modifies volume, `stagingSnapshot
      ensures Valid() && volume.Observed()
      ensures r.Some? ==>
                && r.value.ino == staging && AdoptedDirectory(r.value, owner) && stagingSnapshot == r.value
                && |old(volume.history)| <= named < staged < |volume.history|
                && Bound(volume.history[named], parent, stagingName, staging)
                && Complete(volume.history[staged], staging, roster, files, Minimum(|expected|, |files|))
                && StatOf(volume.fs, parent) == parentSnapshot
      ensures volume.Quiet() && r.Some? ==> r.value == StatOf(volume.fs, staging)
      ensures volume.Quiet() ==>
                (r.Some? <==> && Named(volume.fs) && Verified(volume.fs, staging, roster, files, expected)
                              && StatOf(volume.fs, parent) == parentSnapshot && ControlledDirectory(parentSnapshot, owner))
    {
      hide Complete, Chronicle, Recorded, MadeHere, OwnSince, AdoptedDirectory;
      staged := 0;
      var ok;
      r, named := SettleDirectory(expected);
      if r.None? { return None, named, staged; }
      ok := Wait();
      if !ok { return None, named, staged; }
      ok, staged := VerifyDirectory(staging, expected);
      if !ok { return None, named, staged; }
      ok := ValidateParent(parentSnapshot);
      if !ok { return None, named, staged; }
    }

    /** Its first half: verified, synced, snapshot taken, and found again by its name. */
    method SettleDirectory(expected: seq<(Name, Bytes)>) returns (r: Option<Stat>, ghost named: nat)
      requires Valid()
      modifies volume, `stagingSnapshot
      ensures Valid() && volume.Observed()
      ensures r.Some? ==>
                && r.value.ino == staging && AdoptedDirectory(r.value, owner) && stagingSnapshot == r.value
                && |old(volume.history)| <= named < |volume.history|
                && Bound(volume.history[named], parent, stagingName, staging)
      ensures volume.Quiet() && r.Some? ==> r.value == StatOf(volume.fs, staging)
      ensures volume.Quiet() ==> (r.Some? <==> Named(volume.fs) && Verified(volume.fs, staging, roster, files, expected))
    {
      hide Complete, Chronicle, Recorded, MadeHere, OwnSince, AdoptedDirectory;
      named := 0;
      var ok;
      ghost var staged, inspected;
      ok, staged := VerifyDirectory(staging, expected);
      if !ok { return None, named; }
      ok := Wait();
      if !ok { return None, named; }
      r := InspectStaging();
      if r.None? || !AdoptedDirectory(r.value, owner) { return None, named; }
      stagingSnapshot := r.value;
      ok, named, inspected := RebindDirectory(stagingName, r.value);
      if !ok { return None, named; }
    }

    /** What the checks after the rename ask for, at one moment. */
    predicate Published(fs: FileSystem, settled: Stat, expected: seq<(Name, Bytes)>)
      reads this
    {
      && Bound(fs, parent, outputName, staging) && IsDir(fs, staging) && parent in fs.nodes
      && SameDirectoryIdentity(settled, StatOf(fs, staging))
      && Verified(fs, staging, roster, files, expected)
      && ControlledDirectory(StatOf(fs, parent), owner) && SameControl(parentSnapshot, StatOf(fs, parent))
    }

    /** Everything `publish_exact` does after the rename.  On success there was one
        moment at which the output name led to the held directory and that
        directory was complete. */
    method Confirm(settled: Stat, expected: seq<(Name, Bytes)>) returns (ok: bool, ghost t: nat)
      requires Valid() && settled.ino == staging
      modifies volume
      ensures Valid() && volume.Observed() && files == old(files)
      ensures ok ==>
                && |old(volume.history)| <= t < |volume.history|
                && Bound(volume.history[t], parent, outputName, staging)
                && Complete(volume.history[t], staging, roster, files, Minimum(|expected|, |files|))
                && forall i :: 0 <= i < Minimum(|expected|, |files|) ==>
                     files[i].name == expected[i].0 && files[i].bytes == expected[i].1
      ensures volume.Quiet() ==> (ok <==> Published(volume.fs, settled, expected))
    {
      hide Complete, Chronicle, Recorded, MadeHere, OwnSince, Verified, ControlledDirectory, SameControl, SameDirectoryIdentity, Bound;
      ghost var at, inspected;
      ok, at, inspected := RebindPublished(settled);
      if !ok { return false, 0; }
      var published := InspectStaging();
      if published.None? { return false, 0; }
      ok, t := VerifyDirectory(staging, expected);
      if !ok { return false, 0; }
      ok := Wait();
      if !ok { return false, 0; }
      var parentPublished := InspectParent();
      if parentPublished.None?
         || !ControlledDirectory(parentPublished.value, owner) || !SameControl(parentSnapshot, parentPublished.value) {
        return false, 0;
      }
      ok, t := ConfirmFinal(parentPublished.value, published.value, expected);
    }

    /** The last checks, from a snapshot of the parent on. */
    method ConfirmFinal(parentPublished: Stat, published: Stat, expected: seq<(Name, Bytes)>)
      returns (ok: bool, ghost t: nat)
      requires Valid() && parentPublished == StatOf(volume.fs, parent)
      modifies volume
      ensures Valid() && volume.Observed() && files == old(files)
      ensures ok ==>
                && |old(volume.history)| <= t < |volume.history|
                && Bound(volume.history[t], parent, outputName, staging)
                && Complete(volume.history[t], staging, roster, files, Minimum(|expected|, |files|))
                && forall i :: 0 <= i < Minimum(|expected|, |files|) ==>
                     files[i].name == expected[i].0 && files[i].bytes == expected[i].1
      ensures volume.Quiet() ==>
                (ok <==> && ControlledDirectory(parentPublished, owner)
                         && Bound(volume.fs, parent, outputName, staging) && IsDir(volume.fs, staging)
                         && StatOf(volume.fs, staging) == published
                         && Verified(volume.fs, staging, roster, files, expected))
    {
      hide Complete, Chronicle, Recorded, MadeHere, OwnSince, Verified, ControlledDirectory;
      ghost var p := |volume.history| - 1;
      ok := Wait();
      if !ok { return false, 0; }
      ok := ValidateParent(parentPublished);
      if !ok { return false, 0; }
      ghost var at, inspected;
      ok, at, inspected := RebindDirectory(outputName, published);
      if !ok { return false, 0; }
      ok, t := VerifyDirectory(staging, expected);
      if !ok { return false, 0; }
      ok := ValidateParent(parentPublished);
      if !ok { return false, 0; }
      BindingWasThere(volume.history, p, at, t, |volume.history| - 1, parent, outputName, staging, parentPublished);
    }

    /** The rename that publishes: the state it found had no output name. */
    ghost predicate PublishedBy(log: (FileSystem, Action)) {
      && log.1.Rename? && log.1.dir == parent && log.1.from == stagingName && log.1.to == outputName
      && Enabled(log.0, log.1) && !HasName(log.0, parent, outputName)
    }

    /** When publication goes through if nothing disturbs it: the expected names are the
        roster's, the staged directory verifies under its name, the parent is as
        recorded and controlled, and the output name is free. */
    ghost predicate Ready(fs: FileSystem, expected: seq<(Name, Bytes)>)
      reads this
    {
      && |expected| == |roster| && (forall i :: 0 <= i < |roster| ==> expected[i].0 == roster[i])
      && Named(fs) && Verified(fs, staging, roster, files, expected)
      && parent in fs.nodes && StatOf(fs, parent) == parentSnapshot && ControlledDirectory(parentSnapshot, owner)
      && !HasName(fs, parent, outputName)
    }

    lemma ReadyIsEnabled(fs: FileSystem, expected: seq<(Name, Bytes)>)
      requires parent != staging && staging in fs.nodes
      ensures Ready(fs, expected) ==> Enabled(fs, Rename(parent, stagingName, outputName, 0))
      ensures Enabled(fs, Rename(parent, stagingName, outputName, 0)) ==> !HasName(fs, parent, outputName)
    {
      hide Verified, ControlledDirectory;
    }

    /** The rename leaves everything in place that the checks after it ask for. */
    lemma RenamePublishes(fs: FileSystem, expected: seq<(Name, Bytes)>, time: int)
      requires WellLinked(fs) && Named(fs) && Verified(fs, staging, roster, files, expected) && parent != staging
      requires parent in fs.nodes && StatOf(fs, parent) == parentSnapshot && ControlledDirectory(parentSnapshot, owner)
      requires Enabled(fs, Rename(parent, stagingName, outputName, time))
      ensures Published(Apply(fs, Rename(parent, stagingName, outputName, time)), StatOf(fs, staging), expected)
    {
      hide WellLinked, Apply, Unchanged, NotShared;
      var a := Rename(parent, stagingName, outputName, time);
      var after := Apply(fs, a);
      RenameMoves(fs, a);
      forall i | 0 <= i < Minimum(|expected|, |files|)
        ensures Unchanged(after, files[i]) && Bound(after, staging, files[i].name, files[i].ino)
      {
        assert Unchanged(fs, files[i]) && Bound(fs, staging, files[i].name, files[i].ino);
        IsNoDirectory(fs, files[i]);
        UnchangedAlike(fs, after, files[i]);
      }
    }

    /** The rename itself, and what it found. */
    method MoveToOutput() returns (ok: bool, ghost found: FileSystem, ghost time: int)
      requires Valid()
      modifies volume
      ensures Valid() && files == old(files) && old(volume.history) < volume.history && volume.Onward()
      ensures !ok ==> volume.actions == old(volume.actions)
      ensures ok ==>
                && |volume.actions| == |old(volume.actions)| + 1
                && volume.actions == old(volume.actions) + [volume.actions[|old(volume.actions)|]]
                && PublishedBy(volume.actions[|old(volume.actions)|])
      ensures ok ==> WellLinked(found) && Enabled(found, Rename(parent, stagingName, outputName, time))
                     && volume.fs == Apply(found, Rename(parent, stagingName, outputName, time))
      ensures volume.Quiet() ==>
                && found == old(volume.fs)
                && (ok <==> Enabled(old(volume.fs), Rename(parent, stagingName, outputName, 0)))
    {
      hide Complete, Chronicle, Recorded, MadeHere, Apply, OwnSince;
      ghost var before, log := volume.history, volume.actions;
      var at: int := *;
      time := at;
      ok := volume.Act(Rename(parent, stagingName, outputName, at));
      StaysMade(log, before);
      found := if ok then volume.history[|volume.history| - 2] else volume.fs;
      if ok { LinkedAt(volume.history, |volume.history| - 2); }
    }

    lemma LinkedAt(history: seq<FileSystem>, k: nat)
      requires Chronicle(history) && k < |history|
      ensures WellLinked(history[k])
    {
      hide WellLinked;
      assert Evolves(history[k], history[k]);
    }

    /** `publish_exact`, whatever happens outside.  The only change it makes itself is
        one rename onto a name that was free at that instant, after the staged
        directory was complete.  It reports success only if, at one later moment, the
        output name led to the held directory, which had exactly the roster's names,
        with every staged inode under its own name and with the expected bytes. */
    method PublishExact(expected: seq<(Name, Bytes)>) returns (ok: bool, ghost staged: nat, ghost t: nat)
      requires Valid() && armed
      modifies this, volume
      ensures Valid() && files == old(files) && old(volume.history) < volume.history
      ensures armed ==> !ok && volume.actions == old(volume.actions)
      ensures !armed ==>
                && |volume.actions| == |old(volume.actions)| + 1
                && volume.actions == old(volume.actions) + [volume.actions[|old(volume.actions)|]]
                && PublishedBy(volume.actions[|old(volume.actions)|])
                && |old(volume.history)| <= staged < |volume.history|
                && Complete(volume.history[staged], staging, roster, files, Minimum(|expected|, |files|))
      ensures ok ==>
                && |expected| == |roster| && (forall i :: 0 <= i < |roster| ==> expected[i].0 == roster[i])
                && staged < t < |volume.history|
                && Bound(volume.history[t], parent, outputName, staging)
                && Complete(volume.history[t], staging, roster, files, Minimum(|expected|, |files|))
                && forall i :: 0 <= i < Minimum(|expected|, |files|) ==>
                     files[i].name == expected[i].0 && files[i].bytes == expected[i].1
      ensures volume.Onward() && (volume.Quiet() ==> (ok <==> Ready(old(volume.fs), expected)))
    {
      hide Complete, Chronicle, Recorded, MadeHere, Apply, OwnSince, Verified, Named, Published, ControlledDirectory,
           Enabled, Bound, WellLinked, AdoptedDirectory, HasName;
      staged, t := 0, 0;
      ghost var start := volume.history;
      if |expected| != |roster| || exists i :: 0 <= i < |roster| && expected[i].0 != roster[i] {
        ok := Wait();
        return false, 0, 0;
      }
      var settled;
      ghost var named;
      settled, named, staged := Settle(expected);
      if settled.None? {
        return false, staged, 0;
      }
      ghost var found, time;
      ok, found, time := MoveToOutput();
      ReadyIsEnabled(old(volume.fs), expected);
      if !ok {
        return false, staged, 0;
      }
      armed := false;
      if volume.Quiet() {
        assert Named(found) && Verified(found, staging, roster, files, expected);
        RenamePublishes(found, expected, time);
      }
      ok, t := Confirm(settled.value, expected);
    }

    // ---- writing and cleaning up

    /** `name_has_identity`: the name was bound to this inode at the moment of the look-up. */
    method NameHasIdentity(name: Name, ino: Ino) returns (same: bool, ghost at: nat)
      requires Valid()
      modifies volume
      ensures Valid() && volume.Observed() && files == old(files)
      ensures same ==> |old(volume.history)| <= at < |volume.history| && Bound(volume.history[at], staging, name, ino)
      ensures !same && volume.refusals == old(volume.refusals) ==>
                SeenUnbound(volume.history, |old(volume.history)|, staging, name, ino)
    {
      hide Chronicle, Recorded, MadeHere, OwnSince;
      at := 0;
      ghost var before := volume.history;
      var found := volume.OpenAt(staging, name, false);
      StaysValid(before);
      if found.None? {
        assert volume.refusals == old(volume.refusals) ==> !Bound(volume.history[|volume.history| - 1], staging, name, ino);
        return false, at;
      }
      at := |volume.history| - 1;
      var stat := volume.Fstat(found.value);
      StaysValid(before);
      same := stat.Some? && stat.value.ino == ino;
      assert found.value != ino ==> !Bound(volume.history[at], staging, name, ino);
    }

    /** `cleanup_created_name`, also one step of the drop: look the name up, then unlink it.
        Unless a call was refused, a file does not keep the name throughout. */
    method UnlinkIfSame(name: Name, ino: Ino) returns (done: bool)
      requires Valid()
      modifies volume
      ensures Valid() && files == old(files) && old(volume.history) < volume.history && volume.Onward()
      ensures !done ==> volume.actions == old(volume.actions)
      ensures done ==>
                && |volume.actions| == |old(volume.actions)| + 1 && old(volume.actions) < volume.actions
                && RemovedBy(volume.actions[|old(volume.actions)|], name)
                && SeenBefore(volume.history, |old(volume.history)|, volume.actions[|old(volume.actions)|].0, staging, name, ino)
      ensures volume.refusals == old(volume.refusals) && IsFile(old(volume.fs), ino) ==>
                SeenUnbound(volume.history, |old(volume.history)|, staging, name, ino)
    {
      hide Chronicle, Recorded, MadeHere, Apply, OwnSince, SeenUnbound;
      ghost var first := volume.history;
      var same;
      ghost var at;
      same, at := NameHasIdentity(name, ino);
      if !same {
        return false;
      }
      ghost var before, log := volume.history, volume.actions;
      var time: int := *;
      done := volume.Act(Unlink(staging, name, time));
      StaysMade(log, before);
      assert done ==> volume.history[|volume.history| - 2] == volume.actions[|log|].0 && volume.history[at] == before[at];
      ghost var now := |volume.history| - 1;
      if IsFile(first[|first| - 1], ino) { StaysFile(volume.history, |first| - 1, now, ino); }
      if done { UnlinkUnbinds(volume.actions[|log|].0, volume.actions[|log|].1, ino); }
      if volume.refusals == old(volume.refusals) && IsFile(first[|first| - 1], ino) {
        NowUnbound(volume.history, |first|, staging, name, ino);
      }
    }

    /** The changes that writing one file may make: its exclusive creation in the
        staging directory, its contents, and the removal of its own name again. */
    ghost predicate WritesOnly(log: (FileSystem, Action), name: Name, ino: Ino) {
      && Enabled(log.0, log.1) && !log.1.Rename?
      && (log.1.Make? ==> log.1.dir == staging && log.1.name == name && log.1.ino == ino)
      && (log.1.Overwrite? ==> log.1.ino == ino)
      && (log.1.Unlink? ==> log.1.dir == staging && log.1.name == name)
    }

    /** `write`.  On success the new file is staged: its inode was made here, and at
        the moment of its snapshot it held exactly these bytes.  Undisturbed, it fails
        only for a name that is not expected or taken, or for the metadata that the
        kernel gave the new file; and unless a call was refused, a file that was made
        and not staged loses its name again. */
    method Write(name: Name, bytes: Bytes) returns (ok: bool, ghost made: Ino)
      requires Valid()
      modifies `files, volume
      ensures Valid() && old(volume.history) <= volume.history && old(volume.actions) <= volume.actions && volume.Onward()
      ensures !ok ==> files == old(files)
      ensures ok ==> && name in roster && (forall i :: 0 <= i < |old(files)| ==> old(files)[i].name != name)
                     && |files| == |old(files)| + 1 && files[..|old(files)|] == old(files)
                     && files[|old(files)|].name == name && files[|old(files)|].bytes == bytes
                     && CreatedFileOk(files[|old(files)|].snapshot, |bytes|, owner)
                     && Recorded(volume.history, files[|old(files)|]) && files[|old(files)|].ino == made
      ensures WroteOnly(old(volume.actions), name, made)
      ensures volume.Quiet() ==>
                (ok <==> && name in roster && (forall i :: 0 <= i < |old(files)| ==> old(files)[i].name != name)
                         && IsDir(old(volume.fs), staging) && !HasName(old(volume.fs), staging, name)
                         && |old(volume.actions)| < |volume.actions|
                         && BornOk(volume.actions[|old(volume.actions)|].1, owner))
      ensures volume.Quiet() && name in roster && (forall i :: 0 <= i < |old(files)| ==> old(files)[i].name != name)
              && IsDir(old(volume.fs), staging) && !HasName(old(volume.fs), staging, name) ==>
                |old(volume.actions)| < |volume.actions|
      ensures !ok && volume.refusals == old(volume.refusals) && |old(volume.actions)| < |volume.actions| ==>
                BoundThenNot(volume.history, |old(volume.history)|, staging, name, made)
    {
      hide Chronicle, Recorded, MadeHere, Apply, Enabled, OwnSince, BoundThenNot, CreatedFileOk, BornOk, SeenUnbound;
      ok, made := false, 0;
      if name !in roster || exists i :: 0 <= i < |files| && files[i].name == name {
        return;
      }
      ghost var start, before := volume.actions, volume.history;
      var created, ino := MakeFile(name);
      made := ino;
      if !created {
        return;
      }
      ghost var make, born := volume.actions[|start|], volume.history;
      var filled := FillOrClean(name, bytes, ino);
      assert volume.actions[|start|] == make;
      if filled.None? {
        if volume.refusals == old(volume.refusals) {
          NameWasLost(volume.history, |before|, |born| - 1, |born|, staging, name, ino);
        }
        return;
      }
      files := files + [filled.value];
      ok := true;
    }

    /** The exclusive creation. */
    method MakeFile(name: Name) returns (created: bool, ino: Ino)
      requires Valid()
      modifies volume
      ensures Valid() && files == old(files) && old(volume.history) < volume.history && volume.Onward()
      ensures !created ==> && volume.actions == old(volume.actions)
                           && (volume.Quiet() ==> !IsDir(old(volume.fs), staging) || HasName(old(volume.fs), staging, name))
      ensures created ==>
                && |volume.actions| == |old(volume.actions)| + 1 && old(volume.actions) < volume.actions
                && WritesOnly(volume.actions[|old(volume.actions)|], name, ino)
                && MadeHere(volume.actions, staging, name, ino)
                && IsFile(volume.fs, ino) && Bound(volume.fs, staging, name, ino)
                && (CreatedFileOk(StatOf(volume.fs, ino), 0, owner) <==> BornOk(volume.actions[|old(volume.actions)|].1, owner))
                && (volume.Quiet() ==> IsDir(old(volume.fs), staging) && !HasName(old(volume.fs), staging, name))
    {
      hide Chronicle, Recorded, MadeHere, Apply, OwnSince, CreatedFileOk, BornOk;
      ghost var start, before := volume.actions, volume.history;
      var taken;
      created, ino, taken := volume.Create(staging, name, File([]));
      if created { assert OwnAction(volume.actions[|start|]); }
      StaysMade(start, before);
      if created {
        MadeNow(start, name, ino);
        NewFileIsOk(volume.actions[|start|].0, volume.actions[|start|].1, owner);
      }
    }

    /** What follows it: the contents, or the removal of the name. */
    method FillOrClean(name: Name, bytes: Bytes, ino: Ino) returns (r: Option<StagedFile>)
      requires Valid() && IsFile(volume.fs, ino) && MadeHere(volume.actions, staging, name, ino)
      modifies volume
      ensures Valid() && files == old(files) && old(volume.history) <= volume.history && volume.Onward()
      ensures old(volume.actions) <= volume.actions
      ensures forall k :: |old(volume.actions)| <= k < |volume.actions| ==> WritesOnly(volume.actions[k], name, ino)
      ensures r.Some? ==>
                && r.value.name == name && r.value.bytes == bytes && r.value.ino == ino && ino in volume.fs.nodes
                && CreatedFileOk(r.value.snapshot, |bytes|, owner)
                && Recorded(volume.history, r.value) && MadeHere(volume.actions, staging, name, ino)
      ensures volume.Quiet() ==> (r.Some? <==> CreatedFileOk(StatOf(old(volume.fs), ino), 0, owner))
      ensures r.None? && volume.refusals == old(volume.refusals) ==>
                SeenUnbound(volume.history, |old(volume.history)|, staging, name, ino)
    {
      hide Chronicle, Recorded, MadeHere, Apply, Enabled, OwnSince, CreatedFileOk, SeenUnbound;
      ghost var before := volume.history;
      var filled := Fill(name, bytes, ino);
      match filled
      case Uninspected =>
        r := None;
      case Rejected =>
        ghost var mark := volume.history;
        StaysFile(volume.history, |before| - 1, |mark| - 1, ino);
        var _ := UnlinkIfSame(name, ino);
        if volume.refusals == old(volume.refusals) {
          UnboundStays(volume.history, volume.history, |mark|, |before|, staging, name, ino);
        }
        r := None;
      case Staged(f) =>
        r := Some(f);
    }

    lemma MadeNow(start: seq<(FileSystem, Action)>, name: Name, ino: Ino)
      requires |volume.actions| == |start| + 1
      requires var a := volume.actions[|start|].1; a.Make? && a.dir == staging && a.name == name && a.ino == ino
      ensures MadeHere(volume.actions, staging, name, ino)
    {
    }

    /** From the exclusive creation to the verified contents. */
    method Fill(name: Name, bytes: Bytes, ino: Ino) returns (r: Filled)
      requires Valid() && ino in volume.fs.nodes && MadeHere(volume.actions, staging, name, ino)
      modifies volume
      ensures Valid() && files == old(files) && old(volume.history) <= volume.history && volume.Onward()
      ensures volume.actions == old(volume.actions)
              || (&& |volume.actions| == |old(volume.actions)| + 1 && old(volume.actions) < volume.actions
                  && WritesOnly(volume.actions[|old(volume.actions)|], name, ino))
      ensures r.Staged? ==>
                && r.file.name == name && r.file.bytes == bytes && r.file.ino == ino && ino in volume.fs.nodes
                && CreatedFileOk(r.file.snapshot, |bytes|, owner)
                && Recorded(volume.history, r.file) && MadeHere(volume.actions, staging, name, ino)
      ensures r.Uninspected? ==> old(volume.refusals) < volume.refusals
      ensures volume.Quiet() ==> (r.Staged? <==> CreatedFileOk(StatOf(old(volume.fs), ino), 0, owner))
    {
      hide Chronicle, MadeHere, Apply, Enabled, OwnSince, Recorded, CreatedFileOk;
      ghost var before, log, first := volume.history, volume.actions, volume.fs;
      var created := volume.Fstat(ino);
      StaysValid(before);
      if created.None? {
        return Uninspected;
      }
      if !CreatedFileOk(created.value, 0, owner) {
        return Rejected;
      }
      ghost var mark := volume.history;
      var time: int := *;
      var ok := volume.Act(Overwrite(ino, bytes, time));
      StaysMade(log, mark);
      if CreatedFileOk(StatOf(first, ino), 0, owner) { Overwritten(first, Overwrite(ino, bytes, time), owner); }
      if !ok {
        return Rejected;
      }
      MadeStays(log, volume.actions, name, ino);
      Remembered(volume.history, |mark| - 1, |volume.history| - 1, ino);
      r := Check(name, bytes, ino);
    }

    /** The snapshot after the write, and the contents read back. */
    method Check(name: Name, bytes: Bytes, ino: Ino) returns (r: Filled)
      requires Valid() && ino in volume.fs.nodes && MadeHere(volume.actions, staging, name, ino)
      modifies volume
      ensures Valid() && files == old(files) && volume.Observed() && !r.Uninspected? && ino in volume.fs.nodes
      ensures r.Staged? ==>
                && r.file.name == name && r.file.bytes == bytes && r.file.ino == ino
                && CreatedFileOk(r.file.snapshot, |bytes|, owner) && Recorded(volume.history, r.file)
      ensures volume.Quiet() ==>
                (r.Staged? <==> && CreatedFileOk(StatOf(volume.fs, ino), |bytes|, owner) && IsFile(volume.fs, ino)
                                && volume.fs.nodes[ino].node.bytes == bytes)
    {
      hide Chronicle, MadeHere, OwnSince, CreatedFileOk;
      ghost var mark := volume.history;
      var snapshot := volume.Fstat(ino);
      StaysValid(mark);
      if snapshot.None? || !CreatedFileOk(snapshot.value, |bytes|, owner) {
        return Rejected;
      }
      ghost var later := volume.history;
      var f := StagedFile(name, bytes, ino, snapshot.value);
      var held := VerifyHeld(f);
      StaysValid(later);
      Remembered(volume.history, |later| - 1, |volume.history| - 1, ino);
      if !held {
        return Rejected;
      }
      r := Staged(f);
    }

    lemma MadeStays(log: seq<(FileSystem, Action)>, longer: seq<(FileSystem, Action)>, name: Name, ino: Ino)
      requires log <= longer && MadeHere(log, staging, name, ino)
      ensures MadeHere(longer, staging, name, ino)
    {
      var k :| 0 <= k < |log| && log[k].1.Make?
               && log[k].1.dir == staging && log[k].1.name == name && log[k].1.ino == ino;
      assert longer[k] == log[k];
    }

    /** All changes since `start` belong to writing this file. */
    ghost predicate WroteOnly(start: seq<(FileSystem, Action)>, name: Name, ino: Ino)
      reads volume
    {
      start <= volume.actions && forall k :: |start| <= k < |volume.actions| ==> WritesOnly(volume.actions[k], name, ino)
    }

    ghost predicate RemovedBy(log: (FileSystem, Action), name: Name) {
      log.1.Unlink? && log.1.dir == staging && log.1.name == name && Enabled(log.0, log.1)
    }

    /** A removal that belongs to the drop: the name of a staged file, which before it
        was looked up and found bound to the staged inode. */
    ghost predicate Dropped(history: seq<FileSystem>, from: nat, log: (FileSystem, Action), f: StagedFile) {
      RemovedBy(log, f.name) && SeenBefore(history, from, log.0, staging, f.name, f.ino)
    }

    ghost predicate AllDropped(history: seq<FileSystem>, from: nat, log: seq<(FileSystem, Action)>)
      reads this
    {
      forall k :: 0 <= k < |log| ==> DroppedForSome(history, from, log[k])
    }

    ghost predicate DroppedForSome(history: seq<FileSystem>, from: nat, log: (FileSystem, Action))
      reads this
    {
      exists i :: 0 <= i < |files| && Dropped(history, from, log, files[i])
    }

    lemma DroppedStays(history: seq<FileSystem>, longer: seq<FileSystem>, from: nat, log: seq<(FileSystem, Action)>)
      requires history <= longer && AllDropped(history, from, log)
      ensures AllDropped(longer, from, log)
    {
      forall k | 0 <= k < |log| ensures DroppedForSome(longer, from, log[k]) {
        assert DroppedForSome(history, from, log[k]);
        var i :| 0 <= i < |files| && Dropped(history, from, log[k], files[i]);
        SeenStays(history, longer, from, from, log[k].0, staging, files[i].name, files[i].ino);
        assert Dropped(longer, from, log[k], files[i]);
      }
    }

    /** `drop`: nothing after publication; otherwise only looked-up names of staged files
        are unlinked, each after its look-up, and nothing else is changed. */
    method Drop()
      requires Valid()
      modifies volume
      ensures Valid()
      ensures old(volume.history) <= volume.history && old(volume.actions) <= volume.actions
      ensures !armed ==> volume.history == old(volume.history) && volume.actions == old(volume.actions)
      ensures AllDropped(volume.history, |old(volume.history)|, volume.actions[|old(volume.actions)|..])
      ensures forall k :: |old(volume.actions)| <= k < |volume.actions| ==>
                OwnWhenQuiet(volume.history, |old(volume.history)|, volume.actions[k])
      ensures volume.Onward()
      ensures armed && volume.refusals == old(volume.refusals) ==>
                forall i :: 0 <= i < |files| ==>
                  SeenUnbound(volume.history, |old(volume.history)|, staging, files[i].name, files[i].ino)
    {
      hide Chronicle, Recorded, MadeHere, Apply, Enabled, SeenBefore, OwnSince, OwnWhenQuiet, SeenUnbound;
      if !armed {
        return;
      }
      ghost var from, start := |volume.history|, volume.actions;
      for n := 0 to |files|
        invariant Valid()
        invariant old(volume.history) <= volume.history && start <= volume.actions
        invariant AllDropped(volume.history, from, volume.actions[|start|..])
        invariant volume.Onward()
        invariant volume.refusals == old(volume.refusals) ==> AllUnbound(volume.history, from, n)
      {
        ghost var mark, log := volume.history, volume.actions;
        assert IsFile(volume.fs, files[n].ino) by { RecordedIsFile(n); }
        var done := UnlinkIfSame(files[n].name, files[n].ino);
        if volume.refusals == old(volume.refusals) { OneMoreUnbound(mark, from, n); }
        DroppedStays(mark, volume.history, from, log[|start|..]);
        if done {
          assert volume.actions[|start|..] == log[|start|..] + [volume.actions[|log|]];
          SeenStays(volume.history, volume.history, |mark|, from, volume.actions[|log|].0, staging, files[n].name, files[n].ino);
          assert Dropped(volume.history, from, volume.actions[|log|], files[n]);
          assert DroppedForSome(volume.history, from, volume.actions[|log|]);
        }
      }
      forall k | |start| <= k < |volume.actions| ensures OwnWhenQuiet(volume.history, from, volume.actions[k]) {
        assert volume.actions[k] == volume.actions[|start|..][k - |start|];
        DroppedIsOwnWhenQuiet(volume.history, from, volume.actions[k]);
      }
    }

    /** The first `n` staged files were each seen without their name. */
    ghost predicate AllUnbound(history: seq<FileSystem>, from: nat, n: nat)
      requires n <= |files|
      reads this
    {
      forall i :: 0 <= i < n ==> SeenUnbound(history, from, staging, files[i].name, files[i].ino)
    }

    lemma OneMoreUnbound(mark: seq<FileSystem>, from: nat, n: nat)
      requires n < |files| && mark <= volume.history && from <= |mark| && AllUnbound(mark, from, n)
      requires SeenUnbound(volume.history, |mark|, staging, files[n].name, files[n].ino)
      ensures AllUnbound(volume.history, from, n + 1)
    {
      hide SeenUnbound;
      forall i | 0 <= i < n ensures SeenUnbound(volume.history, from, staging, files[i].name, files[i].ino) {
        UnboundStays(mark, volume.history, from, from, staging, files[i].name, files[i].ino);
      }
      UnboundStays(volume.history, volume.history, |mark|, from, staging, files[n].name, files[n].ino);
    }

    lemma RecordedIsFile(i: nat)
      requires Valid() && i < |files|
      ensures IsFile(volume.fs, files[i].ino)
    {
      hide Chronicle, MadeHere, OwnSince;
      var w :| 0 <= w < |volume.history| && RecordedAt(volume.history, files[i], w);
      StaysFile(volume.history, w, |volume.history| - 1, files[i].ino);
    }

    /** The removal follows a look-up of a staged file's name.  If the staging directory
        did not change since, what was removed is the binding to the staged inode. */
    ghost predicate OwnWhenQuiet(history: seq<FileSystem>, from: nat, log: (FileSystem, Action))
      reads this
    {
      exists i, k :: 0 <= i < |files| && from <= k < |history| && RemovedBy(log, files[i].name)
                     && Bound(history[k], staging, files[i].name, files[i].ino) && Evolves(history[k], log.0)
                     && (Version(log.0, staging) == Version(history[k], staging) ==>
                           Bound(log.0, staging, files[i].name, files[i].ino))
    }

    lemma DroppedIsOwnWhenQuiet(history: seq<FileSystem>, from: nat, log: (FileSystem, Action))
      requires Chronicle(history) && DroppedForSome(history, from, log)
      ensures OwnWhenQuiet(history, from, log)
    {
      hide WellLinked;
      var i :| 0 <= i < |files| && Dropped(history, from, log, files[i]);
      var k, j :| from <= k < j < |history| && Bound(history[k], staging, files[i].name, files[i].ino) && history[j] == log.0;
      assert Evolves(history[k], history[j]);
    }

    /** Of all changes since the bundle was created, its staging directory, the rename
        and the removals included, none takes an existing output name away or rebinds it. */
    lemma OutputIsNeverReplaced(k: nat, existing: Ino)
      requires Valid() && start <= k < |volume.actions|
      requires Bound(volume.actions[k].0, parent, outputName, existing)
      ensures Bound(Apply(volume.actions[k].0, volume.actions[k].1), parent, outputName, existing)
    {
      hide Chronicle, Recorded, MadeHere;
      assert OwnAction(volume.actions[k]);
      ApplyKeepsOthers(volume.actions[k].0, volume.actions[k].1, parent, outputName, existing);
    }

    /** An own change keeps the bundle valid. */
    lemma StaysMade(log: seq<(FileSystem, Action)>, before: seq<FileSystem>)
      requires volume.Valid() && before != [] && before <= volume.history && log <= volume.actions
      requires parent in before[|before| - 1].nodes && staging in before[|before| - 1].nodes && parent != staging
      requires OwnSince(log) && forall k :: |log| <= k < |volume.actions| ==> OwnAction(volume.actions[k])
      requires forall i :: 0 <= i < |files| ==>
                 && files[i].ino in before[|before| - 1].nodes && files[i].name in roster
                 && Recorded(before, files[i]) && MadeHere(log, staging, files[i].name, files[i].ino)
      ensures Valid()
    {
      hide Chronicle, Recorded, OwnAction;
      assert OwnSince(volume.actions) by {
        forall k | start <= k < |volume.actions| ensures OwnAction(volume.actions[k]) {
          if k < |log| { assert volume.actions[k] == log[k]; }
        }
      }
      forall i | 0 <= i < |files| ensures MadeHere(volume.actions, staging, files[i].name, files[i].ino) {
        var k :| 0 <= k < |log| && log[k].1.Make?
                 && log[k].1.dir == staging && log[k].1.name == files[i].name && log[k].1.ino == files[i].ino;
        assert volume.actions[k] == log[k];
      }
      StaysValid(before);
    }
  }

  lemma IsNoDirectory(fs: FileSystem, f: StagedFile)
    requires Unchanged(fs, f)
    ensures IsFile(fs, f.ino)
  {}

  lemma UnchangedAlike(fs: FileSystem, after: FileSystem, f: StagedFile)
    requires Unchanged(fs, f) && f.ino in after.nodes && after.nodes[f.ino] == fs.nodes[f.ino]
    ensures Unchanged(after, f)
  {}

  /** What a rename changes: the moved inode's version and link, the directory's names,
      version and time, and nothing else. */
  lemma RenameMoves(fs: FileSystem, a: Action)
    requires WellLinked(fs) && a.Rename? && Enabled(fs, a)
    ensures var after, ino := Apply(fs, a), fs.nodes[a.dir].node.entries[a.from];
            && Bound(after, a.dir, a.to, ino) && IsDir(after, a.dir)
            && (forall i :: i in fs.nodes && i != ino && i != a.dir ==> i in after.nodes && after.nodes[i] == fs.nodes[i])
            && ino in after.nodes && after.nodes[ino].node == fs.nodes[ino].node
            && StatOf(after, ino) == StatOf(fs, ino).(version := fs.nodes[ino].version + 1)
            && SameControl(StatOf(fs, a.dir), StatOf(after, a.dir))
  {
    hide WellLinked;
    RenameKeepsLinks(fs, a);
  }

  /** A rename moves one link and changes no count. */
  lemma RenameKeepsLinks(fs: FileSystem, a: Action)
    requires WellLinked(fs) && a.Rename? && Enabled(fs, a)
    ensures var ino := fs.nodes[a.dir].node.entries[a.from];
            && |Apply(fs, a).nodes[ino].links| == |fs.nodes[ino].links|
            && Apply(fs, a).nodes[a.dir].links == fs.nodes[a.dir].links
  {
    var ino := fs.nodes[a.dir].node.entries[a.from];
    assert LinkedBack(fs, a.dir, a.from);
    assert (a.dir, a.to) !in fs.nodes[ino].links;
    var fewer := fs.nodes[ino].links - {(a.dir, a.from)};
    assert fewer + {(a.dir, a.from)} == fs.nodes[ino].links;
  }

  function Version(fs: FileSystem, ino: Ino): nat {
    if ino in fs.nodes then fs.nodes[ino].version else 0
  }

  /** A name of an unchanged directory keeps its binding. */
  lemma BindingWasThere(history: seq<FileSystem>, p: nat, at: nat, t: nat, e: nat, dir: Ino, name: Name, ino: Ino, s: Stat)
    requires Chronicle(history) && p <= at < |history| && p <= t <= e < |history| && at <= e
    requires dir in history[p].nodes && StatOf(history[p], dir) == s
    requires dir in history[e].nodes && StatOf(history[e], dir) == s
    requires Bound(history[at], dir, name, ino)
    ensures Bound(history[t], dir, name, ino)
  {
    hide Chronicle;
    Frozen(history, p, at, e, dir);
    Frozen(history, p, t, e, dir);
  }

  /** The name led to the inode, and at a later moment it did not. */
  ghost predicate BoundThenNot(history: seq<FileSystem>, from: nat, dir: Ino, name: Name, ino: Ino) {
    exists j, k :: from <= j < k < |history| && Bound(history[j], dir, name, ino) && !Bound(history[k], dir, name, ino)
  }

  lemma NameWasLost(history: seq<FileSystem>, from: nat, j: nat, later: nat, dir: Ino, name: Name, ino: Ino)
    requires from <= j < later && j < |history| && Bound(history[j], dir, name, ino)
    requires SeenUnbound(history, later, dir, name, ino)
    ensures BoundThenNot(history, from, dir, name, ino)
  {
    var k :| later <= k < |history| && !Bound(history[k], dir, name, ino);
  }

  /** The metadata that the kernel gave a new file. */
  predicate BornOk(a: Action, o: Owner) {
    a.Make? && a.born.mode % PERMISSIONS == FILE_MODE && a.born.uid == o.uid && a.born.gid == o.gid
  }

  lemma NewFileIsOk(fs: FileSystem, a: Action, o: Owner)
    requires Enabled(fs, a) && a.Make? && a.born.node == File([])
    ensures var after := Apply(fs, a);
            && Bound(after, a.dir, a.name, a.ino) && IsFile(after, a.ino)
            && (CreatedFileOk(StatOf(after, a.ino), 0, o) <==> BornOk(a, o))
  {}

  lemma Overwritten(fs: FileSystem, a: Action, o: Owner)
    requires a.Overwrite? && a.ino in fs.nodes && CreatedFileOk(StatOf(fs, a.ino), 0, o)
    ensures Enabled(fs, a)
    ensures var after := Apply(fs, a);
            IsFile(after, a.ino) && after.nodes[a.ino].node.bytes == a.bytes && CreatedFileOk(StatOf(after, a.ino), |a.bytes|, o)
  {}

  lemma NowUnbound(history: seq<FileSystem>, from: nat, dir: Ino, name: Name, ino: Ino)
    requires from < |history| && !Bound(history[|history| - 1], dir, name, ino)
    ensures SeenUnbound(history, from, dir, name, ino)
  {}

  lemma UnlinkUnbinds(fs: FileSystem, a: Action, ino: Ino)
    requires a.Unlink? && Enabled(fs, a)
    ensures !Bound(Apply(fs, a), a.dir, a.name, ino)
  {}

  lemma RecordedBefore(before: seq<FileSystem>, now: seq<FileSystem>, f: StagedFile) returns (w: nat)
    requires before <= now && Recorded(before, f)
    ensures w < |before| && RecordedAt(now, f, w)
  {
    w :| w < |before| && RecordedAt(before, f, w);
    assert now[w] == before[w];
  }

  // ---- creation

  const NONCES: nat := 1024

  predicate IsEmptyDirectory(fs: FileSystem, dir: Ino) {
    IsDir(fs, dir) && fs.nodes[dir].node.entries == map[]
  }

  /** How a directory was adopted: the staging name led to it, it then had the exact
      mode and owner, it was then empty, and the parent is controlled now. */
  ghost predicate Inspected(history: seq<FileSystem>, parent: Ino, stagingName: Name, staging: Ino, stagingStat: Stat,
                            parentStat: Stat, owner: Owner, from: nat, named: nat, inspected: nat, listed: nat) {
    && from <= named < inspected < listed < |history| - 1
    && Bound(history[named], parent, stagingName, staging)
    && staging in history[inspected].nodes && StatOf(history[inspected], staging) == stagingStat
    && AdoptedDirectory(stagingStat, owner)
    && IsEmptyDirectory(history[listed], staging)
    && parent in history[|history| - 1].nodes && StatOf(history[|history| - 1], parent) == parentStat
    && ControlledDirectory(parentStat, owner)
  }

  ghost predicate AdoptedAt(b: Bundle, from: nat, named: nat, inspected: nat, listed: nat)
    reads b, b.volume
  {
    Inspected(b.volume.history, b.parent, b.stagingName, b.staging, b.stagingSnapshot, b.parentSnapshot, b.owner,
              from, named, inspected, listed)
  }

  /** What adoption asks for, at one moment. */
  predicate Adoptable(fs: FileSystem, parent: Ino, stagingName: Name, owner: Owner) {
    && parent in fs.nodes && Opens(fs, parent, stagingName, true) && ControlledDirectory(StatOf(fs, parent), owner)
    && var staging := fs.nodes[parent].node.entries[stagingName];
    && AdoptedDirectory(StatOf(fs, staging), owner) && IsEmptyDirectory(fs, staging)
  }

  /** Adopt the directory found under the staging name, whoever put it there. */
  method AdoptStaging(volume: Volume, owner: Owner, roster: seq<Name>, parent: Ino, outputName: Name, stagingName: Name,
                      ghost start: nat)
    returns (r: Option<Bundle>, ghost named: nat, ghost inspected: nat, ghost listed: nat)
    requires volume.Valid() && parent in volume.fs.nodes && start <= |volume.actions|
    requires forall k :: start <= k < |volume.actions| ==> MadeStaging(volume.actions[k], parent, stagingName)
    modifies volume
    ensures volume.Observed()
    ensures r.Some? ==>
              && r.value.Valid() && r.value.armed && r.value.files == [] && r.value.volume == volume
              && r.value.roster == roster && r.value.parent == parent && r.value.owner == owner
              && r.value.outputName == outputName && r.value.stagingName == stagingName && r.value.start == start
              && AdoptedAt(r.value, |old(volume.history)|, named, inspected, listed)
    ensures volume.Quiet() ==> (r.Some? <==> Adoptable(volume.fs, parent, stagingName, owner))
  {
    hide Chronicle, Recorded, MadeHere, MadeStaging, Inspected, Adoptable;
    r := None;
    var found;
    found, named, inspected, listed := InspectStaging(volume, owner, parent, stagingName);
    if found.Some? {
      var (staging, stat, current) := found.value;
      var bundle := new Bundle.Adopt(volume, owner, roster, parent, outputName, staging, stagingName, current, stat, start);
      r := Some(bundle);
    }
  }

  /** The checks of adoption: the inode found, its snapshot and the parent's. */
  method InspectStaging(volume: Volume, owner: Owner, parent: Ino, stagingName: Name)
    returns (r: Option<(Ino, Stat, Stat)>, ghost named: nat, ghost inspected: nat, ghost listed: nat)
    requires volume.Valid() && parent in volume.fs.nodes
    modifies volume
    ensures volume.Observed()
    ensures r.Some? ==>
              && r.value.0 in volume.fs.nodes && parent in volume.fs.nodes && r.value.0 != parent
              && Inspected(volume.history, parent, stagingName, r.value.0, r.value.1, r.value.2, owner,
                           |old(volume.history)|, named, inspected, listed)
    ensures volume.Quiet() ==> (r.Some? <==> Adoptable(volume.fs, parent, stagingName, owner))
  {
    hide Chronicle, ControlledDirectory, AdoptedDirectory;
    named, inspected, listed := 0, 0, 0;
    r := None;
    volume.Outside();
    Remembered(volume.history, |old(volume.history)| - 1, |volume.history| - 1, parent);
    var staging := volume.OpenAt(parent, stagingName, true);
    if staging.None? {
      return;
    }
    named := |volume.history| - 1;
    NeverInItself(volume.history, named, parent, stagingName, staging.value);
    var stat := volume.Fstat(staging.value);
    if stat.None? || !AdoptedDirectory(stat.value, owner) {
      return;
    }
    inspected := |volume.history| - 1;
    var names := volume.Names(staging.value);
    if names != Some({}) {
      return;
    }
    listed := |volume.history| - 1;
    Remembered(volume.history, named, listed, parent);
    var current := volume.Fstat(parent);
    if current.None? || !ControlledDirectory(current.value, owner) {
      return;
    }
    Remembered(volume.history, named, |volume.history| - 1, staging.value);
    r := Some((staging.value, stat.value, current.value));
  }

  ghost predicate SeenTaken(history: seq<FileSystem>, from: nat, dir: Ino, name: Name) {
    exists k :: from <= k < |history| && HasName(history[k], dir, name)
  }

  lemma TakenStays(history: seq<FileSystem>, longer: seq<FileSystem>, from: nat, dir: Ino, name: Name)
    requires history <= longer && SeenTaken(history, from, dir, name)
    ensures SeenTaken(longer, from, dir, name)
  {
    var k :| from <= k < |history| && HasName(history[k], dir, name);
    assert longer[k] == history[k];
  }

  ghost predicate TakenUpTo(history: seq<FileSystem>, from: nat, dir: Ino, candidate: nat -> Name, nonce: nat) {
    forall n: nat :: n < nonce ==> SeenTaken(history, from, dir, candidate(n))
  }

  /** The name is a candidate, and every candidate before it was seen taken. */
  ghost predicate FirstFree(history: seq<FileSystem>, from: nat, dir: Ino, name: Name, candidate: nat -> Name) {
    exists nonce: nat :: nonce < NONCES && name == candidate(nonce) && TakenUpTo(history, from, dir, candidate, nonce)
  }

  lemma TakenUpToStays(history: seq<FileSystem>, longer: seq<FileSystem>, from: nat, dir: Ino, candidate: nat -> Name, nonce: nat)
    requires history <= longer && TakenUpTo(history, from, dir, candidate, nonce)
    ensures TakenUpTo(longer, from, dir, candidate, nonce)
  {
    forall n: nat | n < nonce ensures SeenTaken(longer, from, dir, candidate(n)) {
      TakenStays(history, longer, from, dir, candidate(n));
    }
  }

  /** The nonce loop: one empty directory under the first candidate name that was not
      taken, or no change.  `EEXIST` means that the name was there at that moment. */
  method MakeStaging(volume: Volume, parent: Ino, candidate: nat -> Name) returns (made: Option<Name>)
    requires volume.Valid() && parent in volume.fs.nodes
    modifies volume
    ensures volume.Valid() && old(volume.history) <= volume.history && parent in volume.fs.nodes
    ensures made.None? ==> volume.actions == old(volume.actions)
    ensures made.Some? ==>
              && |volume.actions| == |old(volume.actions)| + 1 && old(volume.actions) < volume.actions
              && MadeStaging(volume.actions[|old(volume.actions)|], parent, made.value)
              && FirstFree(volume.history, |old(volume.history)|, parent, made.value, candidate)
    ensures volume.Onward()
    ensures made.None? && volume.refusals == old(volume.refusals) ==>
              !IsDir(volume.fs, parent) || TakenUpTo(volume.history, |old(volume.history)|, parent, candidate, NONCES)
    ensures made.None? && volume.Quiet() && IsDir(old(volume.fs), parent) ==> AllTaken(old(volume.fs), parent, candidate)
    ensures volume.changes == old(volume.changes) ==>
              if made.None? then volume.fs == old(volume.fs)
              else volume.actions[|old(volume.actions)|].0 == old(volume.fs)
                   && volume.fs == Apply(old(volume.fs), volume.actions[|old(volume.actions)|].1)
  {
    hide Chronicle, Apply, Enabled, TakenUpTo;
    ghost var from := |volume.history|;
    assert TakenUpTo(volume.history, from, parent, candidate, 0) by { NoneTaken(volume.history, from, parent, candidate); }
    for nonce := 0 to NONCES
      invariant volume.Valid() && old(volume.history) <= volume.history && parent in volume.fs.nodes
      invariant volume.actions == old(volume.actions)
      invariant TakenUpTo(volume.history, from, parent, candidate, nonce)
      invariant volume.Onward() && (volume.changes == old(volume.changes) ==> volume.fs == old(volume.fs))
      invariant volume.refusals == old(volume.refusals)
      invariant volume.changes == old(volume.changes) ==>
                  forall n: nat :: n < nonce ==> HasName(old(volume.fs), parent, candidate(n))
    {
      ghost var mark := volume.history;
      var name := candidate(nonce);
      var done, ino, taken := volume.Create(parent, name, Dir(map[]));
      Remembered(volume.history, |mark| - 1, |volume.history| - 1, parent);
      TakenUpToStays(mark, volume.history, from, parent, candidate, nonce);
      if done {
        return Some(name);
      }
      if !taken {
        return None;
      }
      OneMoreTaken(volume.history, from, parent, candidate, nonce);
    }
    made := None;
  }

  lemma NoneTaken(history: seq<FileSystem>, from: nat, dir: Ino, candidate: nat -> Name)
    ensures TakenUpTo(history, from, dir, candidate, 0)
  {}

  lemma OneMoreTaken(history: seq<FileSystem>, from: nat, dir: Ino, candidate: nat -> Name, nonce: nat)
    requires from < |history| && HasName(history[|history| - 1], dir, candidate(nonce))
    requires TakenUpTo(history, from, dir, candidate, nonce)
    ensures TakenUpTo(history, from, dir, candidate, nonce + 1)
  {}

  /** The metadata that the kernel gave a new directory. */
  predicate BornDirectoryOk(a: Action, o: Owner) {
    a.Make? && a.born.mode % PERMISSIONS == DIRECTORY_MODE && a.born.uid == o.uid && a.born.gid == o.gid
  }

  ghost predicate AllTaken(fs: FileSystem, dir: Ino, candidate: nat -> Name) {
    forall n: nat :: n < NONCES ==> HasName(fs, dir, candidate(n))
  }

  lemma NewDirectoryIsAdoptable(fs: FileSystem, log: (FileSystem, Action), parent: Ino, name: Name, o: Owner)
    requires log.0 == fs && MadeStaging(log, parent, name) && parent in fs.nodes && ControlledDirectory(StatOf(fs, parent), o)
    ensures Adoptable(Apply(fs, log.1), parent, name, o) <==> BornDirectoryOk(log.1, o)
  {}

  /** `create_with_hook`: after the output name was seen absent, makes at most one
      directory, and then adopts whatever stands under its name. */
  method Create(volume: Volume, owner: Owner, roster: seq<Name>, parent: Ino, outputName: Name, candidate: nat -> Name)
    returns (r: Option<Bundle>, ghost absent: nat, ghost named: nat, ghost inspected: nat, ghost listed: nat)
    requires volume.Valid() && parent in volume.fs.nodes
    modifies volume
    ensures volume.Valid() && old(volume.history) <= volume.history
    ensures volume.actions == old(volume.actions)
            || (&& |volume.actions| == |old(volume.actions)| + 1 && old(volume.actions) < volume.actions
                && exists name :: MadeStaging(volume.actions[|old(volume.actions)|], parent, name)
                                  && FirstFree(volume.history, |old(volume.history)|, parent, name, candidate))
    ensures r.Some? ==>
              && r.value.Valid() && r.value.armed && r.value.files == [] && r.value.volume == volume
              && r.value.roster == roster && r.value.parent == parent && r.value.outputName == outputName
              && r.value.owner == owner && r.value.start == |old(volume.actions)|
              && |volume.actions| == |old(volume.actions)| + 1
              && MadeStaging(volume.actions[|old(volume.actions)|], parent, r.value.stagingName)
              && FirstFree(volume.history, |old(volume.history)|, parent, r.value.stagingName, candidate)
              && |old(volume.history)| <= absent < |volume.history| && !HasName(volume.history[absent], parent, outputName)
              && AdoptedAt(r.value, absent, named, inspected, listed)
    ensures volume.Quiet() ==>
              (r.Some? <==> && ControlledDirectory(StatOf(old(volume.fs), parent), owner)
                            && !HasName(old(volume.fs), parent, outputName)
                            && |old(volume.actions)| < |volume.actions|
                            && BornDirectoryOk(volume.actions[|old(volume.actions)|].1, owner))
    ensures volume.Quiet() && ControlledDirectory(StatOf(old(volume.fs), parent), owner)
            && !HasName(old(volume.fs), parent, outputName) && volume.actions == old(volume.actions) ==>
              AllTaken(old(volume.fs), parent, candidate)
  {
    hide Chronicle, Recorded, MadeHere, AdoptedAt, MadeStaging, FirstFree, Adoptable, BornDirectoryOk, AllTaken, TakenUpTo,
         ControlledDirectory, HasName, Apply;
    named, inspected, listed := 0, 0, 0;
    r := None;
    ghost var from, first, start := |volume.history|, volume.fs, volume.actions;
    var free;
    free, absent := OutputIsFree(volume, owner, parent, outputName);
    if !free {
      return;
    }
    ghost var mark := volume.history;
    var name := MakeStaging(volume, parent, candidate);
    if name.None? {
      return;
    }
    ghost var later := volume.history;
    if volume.Quiet() { NewDirectoryIsAdoptable(first, volume.actions[|start|], parent, name.value, owner); }
    r, named, inspected, listed := AdoptStaging(volume, owner, roster, parent, outputName, name.value, |volume.actions| - 1);
    FirstFreeStays(later, volume.history, |mark|, from, parent, name.value, candidate);
    if r.Some? { AdoptedEarlier(r.value, |later|, absent, named, inspected, listed); }
  }

  /** The parent is controlled and has no output name. */
  method OutputIsFree(volume: Volume, owner: Owner, parent: Ino, outputName: Name) returns (ok: bool, ghost absent: nat)
    requires volume.Valid() && parent in volume.fs.nodes
    modifies volume
    ensures volume.Observed() && parent in volume.fs.nodes
    ensures ok ==> |old(volume.history)| <= absent < |volume.history| && !HasName(volume.history[absent], parent, outputName)
    ensures ok ==> IsDir(volume.fs, parent)
    ensures volume.Quiet() ==>
              (ok <==> && ControlledDirectory(StatOf(old(volume.fs), parent), owner)
                       && !HasName(old(volume.fs), parent, outputName))
  {
    hide Chronicle, NotShared;
    absent := 0;
    var snapshot := volume.Fstat(parent);
    if snapshot.None? || !ControlledDirectory(snapshot.value, owner) {
      return false, absent;
    }
    var names := volume.Names(parent);
    if names.None? || outputName in names.value {
      return false, absent;
    }
    absent := |volume.history| - 1;
    ok := true;
  }

  lemma AdoptedEarlier(b: Bundle, from: nat, from': nat, named: nat, inspected: nat, listed: nat)
    requires AdoptedAt(b, from, named, inspected, listed) && from' <= from
    ensures AdoptedAt(b, from', named, inspected, listed)
  {}

  lemma FirstFreeStays(history: seq<FileSystem>, longer: seq<FileSystem>, from: nat, from': nat, dir: Ino, name: Name,
                       candidate: nat -> Name)
    requires history <= longer && from' <= from && FirstFree(history, from, dir, name, candidate)
    ensures FirstFree(longer, from', dir, name, candidate)
  {
    var nonce: nat :| nonce < NONCES && name == candidate(nonce) && TakenUpTo(history, from, dir, candidate, nonce);
    forall n: nat | n < nonce ensures SeenTaken(longer, from', dir, candidate(n)) {
      TakenStays(history, longer, from, dir, candidate(n));
    }
    assert TakenUpTo(longer, from', dir, candidate, nonce);
  }

  // ---- what the contracts amount to

  /** Every roster name leads to a staged inode with its bytes. */
  predicate AllNamesStaged(fs: FileSystem, dir: Ino, roster: seq<Name>, files: seq<StagedFile>) {
    forall n :: n in roster ==> exists i :: 0 <= i < |files| && files[i].name == n && HoldsFile(fs, dir, files[i])
  }

  predicate DistinctNames(names: seq<Name>) {
    forall i, j :: 0 <= i < j < |names| ==> names[i] != names[j]
  }

  /** The staged files are the first names of the roster, on inodes of their own. */
  predicate StagedInOrder(dir: Ino, roster: seq<Name>, files: seq<StagedFile>) {
    && |files| <= |roster|
    && (forall i :: 0 <= i < |files| ==> files[i].name == roster[i] && files[i].ino != dir)
    && (forall i, j :: 0 <= i < j < |files| ==> files[i].ino != files[j].ino)
  }

  /** Verification pairs expected entries with staged files and stops at the shorter
      list.  So what it establishes covers the whole roster exactly when every
      roster name was written through the bundle. */
  lemma RosterCoveredIffAllWritten(dir: Ino, roster: seq<Name>, files: seq<StagedFile>)
    requires DistinctNames(roster) && StagedInOrder(dir, roster, files)
    ensures (forall fs :: WellLinked(fs) && Complete(fs, dir, roster, files, |files|) ==>
               AllNamesStaged(fs, dir, roster, files))
            <==> |files| == |roster|
  {
    if |files| == |roster| {
      forall fs | WellLinked(fs) && Complete(fs, dir, roster, files, |files|)
        ensures AllNamesStaged(fs, dir, roster, files)
      {
        forall n | n in roster
          ensures exists i :: 0 <= i < |files| && files[i].name == n && HoldsFile(fs, dir, files[i])
        {
          var i :| 0 <= i < |roster| && roster[i] == n;
          assert files[i].name == n && HoldsFile(fs, dir, files[i]);
        }
      }
    } else {
      var fs := ForeignCompletion(dir, roster, files);
      assert WellLinked(fs) && Complete(fs, dir, roster, files, |files|) && !AllNamesStaged(fs, dir, roster, files);
    }
  }

  function InoFor(files: seq<StagedFile>, n: Name, otherwise: Ino): Ino {
    if files == [] then otherwise else if files[0].name == n then files[0].ino else InoFor(files[1..], n, otherwise)
  }

  function BytesFor(files: seq<StagedFile>, ino: Ino): Bytes {
    if files == [] then [] else if files[0].ino == ino then files[0].bytes else BytesFor(files[1..], ino)
  }

  lemma {:induction false} ForIsOwn(files: seq<StagedFile>, i: nat, otherwise: Ino)
    requires i < |files|
    requires forall a, b :: 0 <= a < b < |files| ==> files[a].name != files[b].name && files[a].ino != files[b].ino
    ensures InoFor(files, files[i].name, otherwise) == files[i].ino && BytesFor(files, files[i].ino) == files[i].bytes
  {
    if i != 0 { ForIsOwn(files[1..], i - 1, otherwise); }
  }

  function Owners(dir: Ino, roster: seq<Name>, files: seq<StagedFile>, foreign: Ino, ino: Ino): set<(Ino, Name)> {
    set n | n in SetOf(roster) && InoFor(files, n, foreign) == ino :: (dir, n)
  }

  /** The file system in which inode `foreign` stands under every unwritten name. */
  function ForeignFs(dir: Ino, roster: seq<Name>, files: seq<StagedFile>, foreign: Ino): FileSystem {
    var entries := map n | n in SetOf(roster) :: InoFor(files, n, foreign);
    var inos := (set f | f in files :: f.ino) + {foreign};
    FileSystem((map i | i in inos :: Inode(File(BytesFor(files, i)), 0, 0, 0, 0, Owners(dir, roster, files, foreign, i), 0))
               [dir := Inode(Dir(entries), 0, 0, 0, 0, {}, 0)])
  }

  lemma {:induction false} ForIsKnown(files: seq<StagedFile>, n: Name, otherwise: Ino)
    ensures InoFor(files, n, otherwise) == otherwise || exists f :: f in files && f.ino == InoFor(files, n, otherwise)
  {
    if files != [] && files[0].name == n {
      assert files[0] in files;
    } else if files != [] {
      ForIsKnown(files[1..], n, otherwise);
    }
  }

  lemma ForeignIsLinked(dir: Ino, roster: seq<Name>, files: seq<StagedFile>, foreign: Ino)
    requires foreign != dir && forall i :: 0 <= i < |files| ==> files[i].ino != dir
    ensures WellLinked(ForeignFs(dir, roster, files, foreign))
  {
    hide BytesFor, InoFor;
    var fs := ForeignFs(dir, roster, files, foreign);
    forall d: Ino, n: Name | HasName(fs, d, n) ensures LinkedBack(fs, d, n) {
      ForIsKnown(files, n, foreign);
    }
    forall ino, l | ino in fs.nodes && l in fs.nodes[ino].links ensures Bound(fs, l.0, l.1, ino) {}
  }

  /** Someone else supplies the names that were not written. */
  lemma ForeignCompletion(dir: Ino, roster: seq<Name>, files: seq<StagedFile>) returns (fs: FileSystem)
    requires DistinctNames(roster) && StagedInOrder(dir, roster, files) && |files| < |roster|
    ensures WellLinked(fs) && Complete(fs, dir, roster, files, |files|) && !AllNamesStaged(fs, dir, roster, files)
  {
    hide BytesFor, InoFor, HoldsFile, WellLinked;
    var foreign := FreshIno((set f | f in files :: f.ino) + {dir});
    fs := ForeignFs(dir, roster, files, foreign);
    ForeignIsLinked(dir, roster, files, foreign);
    forall i | 0 <= i < |files| ensures HoldsFile(fs, dir, files[i]) {
      ForeignHolds(dir, roster, files, foreign, i);
    }
    var last := roster[|roster| - 1];
    assert last in roster;
    forall i | 0 <= i < |files| ensures !HoldsFile(fs, dir, files[i]) || files[i].name != last {
      assert files[i].name == roster[i];
    }
  }

  lemma ForeignHolds(dir: Ino, roster: seq<Name>, files: seq<StagedFile>, foreign: Ino, i: nat)
    requires DistinctNames(roster) && StagedInOrder(dir, roster, files) && i < |files|
    ensures HoldsFile(ForeignFs(dir, roster, files, foreign), dir, files[i])
  {
    hide BytesFor, InoFor;
    ForIsOwn(files, i, foreign);
    assert files[i] in files && files[i].name in roster;
  }

  /** What the unlink may find when the directory has reached version `v`. */
  predicate Finds(seen: FileSystem, found: FileSystem, dir: Ino, name: Name, v: nat) {
    Evolves(seen, found) && Enabled(found, Unlink(dir, name, 0)) && found.nodes[dir].version == v
  }

  /** A look-up and the unlink after it are two steps.  Whatever happens outside, the
      unlink removes the binding that was looked up if and only if the directory is
      still at the version it had then; all other bindings stay in any case. */
  lemma DropRemovesOwnIff(seen: FileSystem, dir: Ino, name: Name, ino: Ino, v: nat)
    requires WellLinked(seen) && Bound(seen, dir, name, ino) && v >= seen.nodes[dir].version
    ensures (forall found :: Finds(seen, found, dir, name, v) ==> Bound(found, dir, name, ino))
            <==> v == seen.nodes[dir].version
    ensures forall found, d: Ino, n: Name, i: Ino ::
              Finds(seen, found, dir, name, v) && Bound(found, d, n, i) && (d, n) != (dir, name) ==>
                Bound(Apply(found, Unlink(dir, name, 0)), d, n, i)
  {
    hide WellLinked;
    forall found, d: Ino, n: Name, i: Ino | Finds(seen, found, dir, name, v) && Bound(found, d, n, i) && (d, n) != (dir, name)
      ensures Bound(Apply(found, Unlink(dir, name, 0)), d, n, i)
    {
      ApplyKeepsOthers(found, Unlink(dir, name, 0), d, n, i);
    }
    if v > seen.nodes[dir].version {
      assert LinkedBack(seen, dir, name) by { NamesAreLinked(seen, dir, name); }
      var other := FreshIno(seen.nodes.Keys);
      var found := Replaced(seen, dir, name, other, v);
      ReplacedIsFound(seen, dir, name, other, v);
      assert Finds(seen, found, dir, name, v) && !Bound(found, dir, name, ino);
    }
  }

  /** Somebody replaced the file behind the name with inode `other`, and the directory
      reached version `v`. */
  function Replaced(seen: FileSystem, dir: Ino, name: Name, other: Ino, v: nat): FileSystem
    requires HasName(seen, dir, name) && seen.nodes[dir].node.entries[name] in seen.nodes
  {
    var d := seen.nodes[dir];
    var ino := d.node.entries[name];
    FileSystem(seen.nodes[dir := d.(node := Dir(d.node.entries[name := other]), version := v)]
                         [ino := Relink(seen.nodes[ino], seen.nodes[ino].links - {(dir, name)})]
                         [other := Inode(File([]), 0, 0, 0, 0, {(dir, name)}, 0)])
  }

  lemma ReplacedIsFound(seen: FileSystem, dir: Ino, name: Name, other: Ino, v: nat)
    requires WellLinked(seen) && HasName(seen, dir, name) && LinkedBack(seen, dir, name) && other !in seen.nodes
    requires v > seen.nodes[dir].version
    ensures Finds(seen, Replaced(seen, dir, name, other, v), dir, name, v)
  {
    hide EntriesLinked, LinksBound;
    ReplacedEntries(seen, dir, name, other, v);
    ReplacedLinks(seen, dir, name, other, v);
  }

  lemma ReplacedEntries(seen: FileSystem, dir: Ino, name: Name, other: Ino, v: nat)
    requires WellLinked(seen) && HasName(seen, dir, name) && LinkedBack(seen, dir, name) && other !in seen.nodes
    ensures EntriesLinked(Replaced(seen, dir, name, other, v))
  {
    hide LinksBound;
    var found := Replaced(seen, dir, name, other, v);
    forall e: Ino, n: Name | HasName(found, e, n) ensures LinkedBack(found, e, n) {
      assert HasName(seen, e, n) && LinkedBack(seen, e, n);
    }
  }

  lemma ReplacedLinks(seen: FileSystem, dir: Ino, name: Name, other: Ino, v: nat)
    requires WellLinked(seen) && HasName(seen, dir, name) && LinkedBack(seen, dir, name) && other !in seen.nodes
    ensures LinksBound(Replaced(seen, dir, name, other, v))
  {
    hide EntriesLinked;
    var found := Replaced(seen, dir, name, other, v);
    forall i, l | i in found.nodes && l in found.nodes[i].links ensures Bound(found, l.0, l.1, i) {
      if i != other { assert l in seen.nodes[i].links && Bound(seen, l.0, l.1, i); }
    }
  }

  /** If it did change, the unlink can remove a binding to somebody else's inode. */
  lemma RacingDropCanRemoveForeign()
    ensures exists seen, found ::
              && WellLinked(seen) && Evolves(seen, found)
              && Bound(seen, 1, "observations.json", 2) && Bound(found, 1, "observations.json", 3)
              && Enabled(found, Unlink(1, "observations.json", 0))
              && !HasName(Apply(found, Unlink(1, "observations.json", 0)), 1, "observations.json")
  {
    var name := "observations.json";
    var mine := Inode(File([]), 0, 0, 0, 0, {(1, name)}, 0);
    var seen := FileSystem(map[1 := Inode(Dir(map[name := 2]), 0, 0, 0, 0, {}, 0), 2 := mine]);
    var found := FileSystem(map[1 := Inode(Dir(map[name := 3]), 0, 0, 0, 0, {}, 1),
                                2 := mine.(links := {}, version := 1), 3 := mine]);
    assert WellLinked(seen) && WellLinked(found) && Evolves(seen, found);
  }
}
