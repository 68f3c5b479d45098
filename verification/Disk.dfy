/** A file system that other processes change at any moment.

    Every change to an inode, including a change of the names bound to it, bumps
    its version (its change time), and versions never go back.  An inode that a
    process holds open keeps its identity. */
module Disk {
  import opened Octets
  import opened Outcomes

  type Ino = nat
  type Name = string

  datatype Node = File(bytes: Bytes) | Dir(entries: map<Name, Ino>)

  /** `links` are the (directory, name) pairs bound to the inode. */
  datatype Inode = Inode(node: Node, mode: nat, uid: nat, gid: nat, mtime: int, links: set<(Ino, Name)>, version: nat)

  datatype FileSystem = FileSystem(nodes: map<Ino, Inode>)

  /** What `fstat` reports; `version` is the change time. */
  datatype Stat = Stat(ino: Ino, isDir: bool, mode: nat, nlink: nat, uid: nat, gid: nat, size: nat, mtime: int, version: nat)

  function StatOf(fs: FileSystem, ino: Ino): Stat
    requires ino in fs.nodes
  {
    var i := fs.nodes[ino];
    Stat(ino, i.node.Dir?, i.mode, |i.links|, i.uid, i.gid,
         if i.node.File? then |i.node.bytes| else |i.node.entries|, i.mtime, i.version)
  }

  predicate IsDir(fs: FileSystem, dir: Ino) {
    dir in fs.nodes && fs.nodes[dir].node.Dir?
  }

  predicate IsFile(fs: FileSystem, ino: Ino) {
    ino in fs.nodes && fs.nodes[ino].node.File?
  }

  predicate Bound(fs: FileSystem, dir: Ino, name: Name, ino: Ino) {
    IsDir(fs, dir) && name in fs.nodes[dir].node.entries && fs.nodes[dir].node.entries[name] == ino
  }

  predicate HasName(fs: FileSystem, dir: Ino, name: Name) {
    IsDir(fs, dir) && name in fs.nodes[dir].node.entries
  }

  /** Directory entries and inode links are the same relation, and no directory
      holds itself. */
  predicate WellLinked(fs: FileSystem) {
    EntriesLinked(fs) && LinksBound(fs)
  }

  predicate EntriesLinked(fs: FileSystem) {
    forall dir :: dir in fs.nodes && fs.nodes[dir].node.Dir? ==>
      forall name :: name in fs.nodes[dir].node.entries ==> LinkedBack(fs, dir, name)
  }

  predicate LinksBound(fs: FileSystem) {
    forall ino :: ino in fs.nodes ==> forall l :: l in fs.nodes[ino].links ==> Bound(fs, l.0, l.1, ino)
  }

  predicate LinkedBack(fs: FileSystem, dir: Ino, name: Name)
    requires HasName(fs, dir, name)
  {
    var ino := fs.nodes[dir].node.entries[name];
    ino in fs.nodes && (dir, name) in fs.nodes[ino].links && ino != dir
  }

  /** Time passes: versions only grow, an inode whose version is the same is the same in
      every respect, and files stay files. */
  predicate Evolves(a: FileSystem, b: FileSystem) {
    && WellLinked(b)
    && forall i :: i in a.nodes ==>
         && i in b.nodes && a.nodes[i].version <= b.nodes[i].version
         && (a.nodes[i].version == b.nodes[i].version ==> a.nodes[i] == b.nodes[i])
         && (a.nodes[i].node.File? <==> b.nodes[i].node.File?)
  }

  // ---- the publisher's own changes

  datatype Action =
    | Make(dir: Ino, name: Name, ino: Ino, born: Inode)
    | Overwrite(ino: Ino, bytes: Bytes, time: int)
    | Rename(dir: Ino, from: Name, to: Name, time: int)
    | Unlink(dir: Ino, name: Name, time: int)

  /** When the kernel carries the action out: creation is exclusive, renaming does
      not replace. */
  predicate Enabled(fs: FileSystem, a: Action) {
    match a
    case Make(dir, name, ino, born) =>
      && IsDir(fs, dir) && !HasName(fs, dir, name) && ino !in fs.nodes
      && born.links == {(dir, name)} && born.node in {File([]), Dir(map[])}
    case Overwrite(ino, _, _) => IsFile(fs, ino)
    case Rename(dir, from, to, _) => HasName(fs, dir, from) && !HasName(fs, dir, to) && from != to
                                     && fs.nodes[dir].node.entries[from] in fs.nodes
                                     && fs.nodes[dir].node.entries[from] != dir
    case Unlink(dir, name, _) => HasName(fs, dir, name) && IsFile(fs, fs.nodes[dir].node.entries[name])
  }

  function Rebind(i: Inode, entries: map<Name, Ino>, time: int): Inode {
    i.(node := Dir(entries), mtime := time, version := i.version + 1)
  }

  function Relink(i: Inode, links: set<(Ino, Name)>): Inode {
    i.(links := links, version := i.version + 1)
  }

  function Apply(fs: FileSystem, a: Action): FileSystem
    requires Enabled(fs, a)
  {
    match a
    case Make(dir, name, ino, born) =>
      var d := fs.nodes[dir];
      FileSystem(fs.nodes[dir := Rebind(d, d.node.entries[name := ino], born.mtime)][ino := born])
    case Overwrite(ino, bytes, time) =>
      var i := fs.nodes[ino];
      var rest := if |bytes| <= |i.node.bytes| then i.node.bytes[|bytes|..] else [];
      FileSystem(fs.nodes[ino := i.(node := File(bytes + rest), mtime := time, version := i.version + 1)])
    case Rename(dir, from, to, time) =>
      var d := fs.nodes[dir];
      var ino := d.node.entries[from];
      var i := fs.nodes[ino];
      FileSystem(fs.nodes[dir := Rebind(d, (d.node.entries - {from})[to := ino], time)]
                         [ino := Relink(i, i.links - {(dir, from)} + {(dir, to)})])
    case Unlink(dir, name, time) =>
      var d := fs.nodes[dir];
      var ino := d.node.entries[name];
      var i := fs.nodes[ino];
      FileSystem(fs.nodes[dir := Rebind(d, d.node.entries - {name}, time)][ino := Relink(i, i.links - {(dir, name)})])
  }

  lemma ApplyKeepsOthers(fs: FileSystem, a: Action, dir: Ino, name: Name, ino: Ino)
    requires Enabled(fs, a) && Bound(fs, dir, name, ino)
    requires a.Rename? ==> (dir, name) != (a.dir, a.from)
    requires a.Unlink? ==> (dir, name) != (a.dir, a.name)
    ensures Bound(Apply(fs, a), dir, name, ino)
  {
  }

  lemma MakeEvolves(fs: FileSystem, a: Action)
    requires WellLinked(fs) && Enabled(fs, a) && a.Make?
    ensures Evolves(fs, Apply(fs, a))
  {
    var after := Apply(fs, a);
    forall dir: Ino, name: Name | HasName(after, dir, name) ensures LinkedBack(after, dir, name) {
      if (dir, name) != (a.dir, a.name) { assert HasName(fs, dir, name) && LinkedBack(fs, dir, name); }
    }
    forall ino, l | ino in after.nodes && l in after.nodes[ino].links ensures Bound(after, l.0, l.1, ino) {
      if ino != a.ino { assert Bound(fs, l.0, l.1, ino); }
    }
  }

  lemma OverwriteEvolves(fs: FileSystem, a: Action)
    requires WellLinked(fs) && Enabled(fs, a) && a.Overwrite?
    ensures Evolves(fs, Apply(fs, a))
  {
    var after := Apply(fs, a);
    forall dir: Ino, name: Name | HasName(after, dir, name) ensures LinkedBack(after, dir, name) {
      assert HasName(fs, dir, name) && LinkedBack(fs, dir, name);
    }
    forall ino, l | ino in after.nodes && l in after.nodes[ino].links ensures Bound(after, l.0, l.1, ino) {
      assert Bound(fs, l.0, l.1, ino);
    }
  }

  lemma RenameEntries(fs: FileSystem, a: Action)
    requires EntriesLinked(fs) && Enabled(fs, a) && a.Rename?
    ensures EntriesLinked(Apply(fs, a))
  {
    var after := Apply(fs, a);
    forall dir: Ino, name: Name | HasName(after, dir, name) ensures LinkedBack(after, dir, name) {
      if (dir, name) != (a.dir, a.to) { assert HasName(fs, dir, name) && LinkedBack(fs, dir, name); }
    }
  }

  lemma RenameLinks(fs: FileSystem, a: Action)
    requires LinksBound(fs) && Enabled(fs, a) && a.Rename?
    ensures LinksBound(Apply(fs, a))
  {
    var after, moved := Apply(fs, a), fs.nodes[a.dir].node.entries[a.from];
    forall ino, l | ino in after.nodes && l in after.nodes[ino].links ensures Bound(after, l.0, l.1, ino) {
      if ino != moved || l != (a.dir, a.to) { assert l in fs.nodes[ino].links && Bound(fs, l.0, l.1, ino); }
    }
  }

  lemma RenameEvolves(fs: FileSystem, a: Action)
    requires WellLinked(fs) && Enabled(fs, a) && a.Rename?
    ensures Evolves(fs, Apply(fs, a))
  {
    hide EntriesLinked, LinksBound;
    RenameEntries(fs, a);
    RenameLinks(fs, a);
  }

  lemma UnlinkEntries(fs: FileSystem, a: Action)
    requires EntriesLinked(fs) && Enabled(fs, a) && a.Unlink?
    ensures EntriesLinked(Apply(fs, a))
  {
    var after := Apply(fs, a);
    forall dir: Ino, name: Name | HasName(after, dir, name) ensures LinkedBack(after, dir, name) {
      assert HasName(fs, dir, name) && LinkedBack(fs, dir, name);
    }
  }

  lemma UnlinkLinks(fs: FileSystem, a: Action)
    requires LinksBound(fs) && Enabled(fs, a) && a.Unlink?
    ensures LinksBound(Apply(fs, a))
  {
    var after := Apply(fs, a);
    forall ino, l | ino in after.nodes && l in after.nodes[ino].links ensures Bound(after, l.0, l.1, ino) {
      assert l in fs.nodes[ino].links && Bound(fs, l.0, l.1, ino);
    }
  }

  lemma UnlinkEvolves(fs: FileSystem, a: Action)
    requires WellLinked(fs) && Enabled(fs, a) && a.Unlink?
    ensures Evolves(fs, Apply(fs, a))
  {
    hide EntriesLinked, LinksBound;
    UnlinkEntries(fs, a);
    UnlinkLinks(fs, a);
  }

  /** The publisher's changes obey the same rules as everyone else's. */
  lemma ApplyEvolves(fs: FileSystem, a: Action)
    requires WellLinked(fs) && Enabled(fs, a)
    ensures Evolves(fs, Apply(fs, a))
  {
    hide WellLinked, Evolves, Enabled;
    match a
    case Make(_, _, _, _) => MakeEvolves(fs, a);
    case Overwrite(_, _, _) => OverwriteEvolves(fs, a);
    case Rename(_, _, _, _) => RenameEvolves(fs, a);
    case Unlink(_, _, _) => UnlinkEvolves(fs, a);
  }

  // ---- histories

  ghost predicate Chronicle(history: seq<FileSystem>) {
    && history != [] && WellLinked(history[0])
    && forall i, j :: 0 <= i <= j < |history| ==> Evolves(history[i], history[j])
  }

  lemma EvolvesReflexive(a: FileSystem)
    requires WellLinked(a)
    ensures Evolves(a, a)
  {
  }

  lemma EvolvesTransitive(a: FileSystem, b: FileSystem, c: FileSystem)
    requires Evolves(a, b) && Evolves(b, c)
    ensures Evolves(a, c)
  {
    forall i | i in a.nodes
      ensures i in c.nodes && a.nodes[i].version <= c.nodes[i].version
      ensures a.nodes[i].version == c.nodes[i].version ==> a.nodes[i] == c.nodes[i]
      ensures a.nodes[i].node.File? <==> c.nodes[i].node.File?
    {
      assert i in b.nodes;
    }
  }

  lemma ChronicleExtends(history: seq<FileSystem>, next: FileSystem)
    requires Chronicle(history) && Evolves(history[|history| - 1], next)
    ensures Chronicle(history + [next])
  {
    hide Evolves, WellLinked;
    var longer := history + [next];
    forall i, j | 0 <= i <= j < |longer| ensures Evolves(longer[i], longer[j]) {
      if j == |history| {
        if i < |history| {
          EvolvesTransitive(history[i], history[|history| - 1], next);
        } else {
          EvolvedIsLinked(history[|history| - 1], next);
          EvolvesReflexive(next);
        }
      }
    }
  }

  lemma EvolvedIsLinked(a: FileSystem, b: FileSystem)
    requires Evolves(a, b)
    ensures WellLinked(b)
  {
  }

  /** Equal versions at two moments freeze the inode in between. */
  lemma Frozen(history: seq<FileSystem>, i: nat, k: nat, j: nat, ino: Ino)
    requires Chronicle(history) && i <= k <= j < |history|
    requires ino in history[i].nodes && ino in history[j].nodes
    requires history[i].nodes[ino].version == history[j].nodes[ino].version
    ensures ino in history[k].nodes && history[k].nodes[ino] == history[i].nodes[ino] == history[j].nodes[ino]
  {
    hide WellLinked;
    assert Evolves(history[i], history[k]) && Evolves(history[k], history[j]) && Evolves(history[i], history[j]);
  }

  lemma Remembered(history: seq<FileSystem>, i: nat, j: nat, ino: Ino)
    requires Chronicle(history) && i <= j < |history| && ino in history[i].nodes
    ensures ino in history[j].nodes
  {
    hide WellLinked;
    assert Evolves(history[i], history[j]);
  }

  lemma NeverInItself(history: seq<FileSystem>, k: nat, dir: Ino, name: Name, ino: Ino)
    requires Chronicle(history) && k < |history| && Bound(history[k], dir, name, ino)
    ensures ino != dir
  {
    assert Evolves(history[0], history[k]);
    assert LinkedBack(history[k], dir, name);
  }

  lemma StaysFile(history: seq<FileSystem>, i: nat, j: nat, ino: Ino)
    requires Chronicle(history) && i <= j < |history| && IsFile(history[i], ino)
    ensures IsFile(history[j], ino)
  {
    hide WellLinked;
    assert Evolves(history[i], history[j]);
  }

  lemma LinkIsBinding(history: seq<FileSystem>, k: nat, dir: Ino, name: Name, ino: Ino)
    requires Chronicle(history) && k < |history|
    ensures Bound(history[k], dir, name, ino) <==> ino in history[k].nodes && (dir, name) in history[k].nodes[ino].links
  {
    assert Evolves(history[0], history[k]);
  }

  // ---- system calls, each after an arbitrary outside change

  /** What `openat2` finds there. */
  predicate Opens(fs: FileSystem, dir: Ino, name: Name, directory: bool) {
    HasName(fs, dir, name) && (directory ==> IsDir(fs, fs.nodes[dir].node.entries[name]))
  }

  /** The live file system.  `history` holds every state it passed through, `actions`
      the publisher's own changes with the state each one found.  `refusals` counts the
      calls that failed although they could have been carried out, and `changes` the
      moments at which somebody else changed something. */
  class Volume {
    var fs: FileSystem
    ghost var history: seq<FileSystem>
    ghost var actions: seq<(FileSystem, Action)>
    ghost var refusals: nat
    ghost var changes: nat

    ghost predicate Valid()
      reads this
    {
      history != [] && Chronicle(history) && history[|history| - 1] == fs
    }

    /** Time went on, and the publisher itself changed nothing. */
    twostate predicate Observed()
      reads this
    {
      && Valid() && old(history) < history && actions == old(actions) && Onward()
      && (changes == old(changes) ==> fs == old(fs))
    }

    twostate predicate Onward()
      reads this
    {
      old(refusals) <= refusals && old(changes) <= changes
    }

    /** Every call was carried out where it could be, and nobody else changed anything. */
    twostate predicate Quiet()
      reads this
    {
      refusals == old(refusals) && changes == old(changes)
    }

    method Outside()
      requires Valid()
      modifies this
      ensures Observed() && refusals == old(refusals)
    {
      EvolvesNow();
      var next: FileSystem :| Evolves(fs, next);
      ChronicleExtends(history, next);
      if next != fs { changes := changes + 1; }
      fs := next;
      history := history + [next];
    }

    lemma EvolvesNow()
      requires Valid()
      ensures Evolves(fs, fs) && WellLinked(fs)
    {
      hide Evolves;
      assert Evolves(history[|history| - 1], history[|history| - 1]);
      EvolvedIsLinked(fs, fs);
    }

    method Refuse()
      modifies `refusals
      ensures refusals == old(refusals) + 1
    {
      refusals := refusals + 1;
    }

    /** `fstat` of a held inode. */
    method Fstat(ino: Ino) returns (r: Option<Stat>)
      requires Valid() && ino in fs.nodes
      modifies this
      ensures Observed() && ino in fs.nodes
      ensures if r.Some? then refusals == old(refusals) && r.value == StatOf(fs, ino) else old(refusals) < refusals
    {
      hide Evolves, WellLinked;
      ghost var before := |history| - 1;
      Outside();
      Remembered(history, before, |history| - 1, ino);
      if * {
        Refuse();
        return None;
      }
      r := Some(StatOf(fs, ino));
    }

    /** `openat2` without following links. */
    method OpenAt(dir: Ino, name: Name, directory: bool) returns (r: Option<Ino>)
      requires Valid() && dir in fs.nodes
      modifies this
      ensures Observed() && dir in fs.nodes
      ensures r.Some? ==> Bound(fs, dir, name, r.value) && r.value in fs.nodes && (directory ==> IsDir(fs, r.value))
      ensures r.Some? ==> refusals == old(refusals)
      ensures r.None? ==> old(refusals) < refusals || (refusals == old(refusals) && !Opens(fs, dir, name, directory))
    {
      hide Evolves, EntriesLinked, LinksBound;
      ghost var before := |history| - 1;
      Outside();
      Remembered(history, before, |history| - 1, dir);
      if * {
        Refuse();
        return None;
      }
      if Opens(fs, dir, name, directory) {
        EvolvesNow();
        NamesAreLinked(fs, dir, name);
        return Some(fs.nodes[dir].node.entries[name]);
      }
      r := None;
    }

    /** The names in a held directory. */
    method Names(dir: Ino) returns (r: Option<set<Name>>)
      requires Valid() && dir in fs.nodes
      modifies this
      ensures Observed() && dir in fs.nodes
      ensures r.Some? ==> refusals == old(refusals) && IsDir(fs, dir) && r.value == fs.nodes[dir].node.entries.Keys
      ensures r.None? ==> old(refusals) < refusals || (refusals == old(refusals) && !IsDir(fs, dir))
    {
      hide Evolves, WellLinked;
      ghost var before := |history| - 1;
      Outside();
      Remembered(history, before, |history| - 1, dir);
      if * {
        Refuse();
        return None;
      }
      r := if IsDir(fs, dir) then Some(fs.nodes[dir].node.entries.Keys) else None;
    }

    /** At most `limit` bytes of a held file from its start. */
    method Read(ino: Ino, limit: nat) returns (r: Option<Bytes>)
      requires Valid() && ino in fs.nodes
      modifies this
      ensures Observed() && ino in fs.nodes
      ensures r.Some? ==> refusals == old(refusals) && IsFile(fs, ino) && r.value == Take(fs.nodes[ino].node.bytes, limit)
      ensures r.None? ==> old(refusals) < refusals || (refusals == old(refusals) && !IsFile(fs, ino))
    {
      hide Evolves, WellLinked;
      ghost var before := |history| - 1;
      Outside();
      Remembered(history, before, |history| - 1, ino);
      if * {
        Refuse();
        return None;
      }
      r := if IsFile(fs, ino) then Some(Take(fs.nodes[ino].node.bytes, limit)) else None;
    }

    /** A step that only lets time pass and may fail: `fsync`, a hook, revalidation. */
    method Pause() returns (ok: bool)
      requires Valid()
      modifies this
      ensures Observed() && (ok <==> refusals == old(refusals))
    {
      Outside();
      ok := *;
      if !ok { Refuse(); }
    }

    /** One of the publisher's own changes, refused when the kernel would refuse it. */
    method Act(a: Action) returns (ok: bool)
      requires Valid()
      modifies this
      ensures Valid() && old(history) < history && Onward()
      ensures !ok ==> actions == old(actions) && (old(refusals) < refusals || !Enabled(fs, a))
      ensures !ok && changes == old(changes) ==> fs == old(fs)
      ensures ok ==> Acted(a) && refusals == old(refusals)
    {
      hide Evolves, WellLinked, Apply, Enabled;
      Outside();
      if * {
        Refuse();
        return false;
      }
      if !Enabled(fs, a) {
        return false;
      }
      Carry(a);
      ok := true;
    }

    /** The last own change was `a`, made at the moment before now. */
    twostate predicate Acted(a: Action)
      reads this
    {
      && |old(history)| < |history| - 1
      && Enabled(history[|history| - 2], a) && fs == Apply(history[|history| - 2], a)
      && actions == old(actions) + [(history[|history| - 2], a)]
      && (changes == old(changes) ==> history[|history| - 2] == old(fs))
    }

    method Carry(a: Action)
      requires Valid() && Enabled(fs, a)
      modifies `fs, `history, `actions
      ensures Valid() && history == old(history) + [fs] && fs == Apply(old(fs), a)
      ensures actions == old(actions) + [(old(fs), a)]
    {
      hide Evolves, WellLinked, Apply, Enabled;
      EvolvesNow();
      ApplyEvolves(fs, a);
      actions := actions + [(fs, a)];
      ChronicleExtends(history, Apply(fs, a));
      fs := Apply(fs, a);
      history := history + [fs];
    }

    /** Exclusive creation of an empty file or directory; the kernel picks a new inode
        and its metadata.  `taken` is `EEXIST`. */
    method Create(dir: Ino, name: Name, node: Node) returns (ok: bool, ino: Ino, taken: bool)
      requires Valid() && node in {File([]), Dir(map[])}
      modifies this
      ensures Valid() && old(history) < history && Onward()
      ensures !ok ==> actions == old(actions)
      ensures taken ==> !ok && HasName(fs, dir, name) && refusals == old(refusals)
      ensures !ok && !taken ==> old(refusals) < refusals || !IsDir(fs, dir)
      ensures !ok && changes == old(changes) ==> fs == old(fs)
      ensures ok ==> && refusals == old(refusals) && |actions| == |old(actions)| + 1 && Acted(actions[|old(actions)|].1)
                     && Creates(actions[|old(actions)|].1, dir, name, ino, node)
    {
      hide Evolves, WellLinked, Apply, Enabled;
      Outside();
      ok, ino, taken := false, 0, false;
      if * {
        Refuse();
        return;
      }
      if HasName(fs, dir, name) {
        taken := true;
        return;
      }
      if !IsDir(fs, dir) {
        return;
      }
      ghost var free := FreshIno(fs.nodes.Keys);
      ino :| ino !in fs.nodes;
      var mode: nat, uid: nat, gid: nat, time: int :| true;
      var a := Make(dir, name, ino, Inode(node, mode, uid, gid, time, {(dir, name)}, 0));
      NewIsEnabled(fs, a);
      Carry(a);
      ok := true;
    }
  }

  predicate Creates(a: Action, dir: Ino, name: Name, ino: Ino, node: Node) {
    a.Make? && a.dir == dir && a.name == name && a.ino == ino && a.born.node == node
  }

  lemma NewIsEnabled(fs: FileSystem, a: Action)
    requires a.Make? && IsDir(fs, a.dir) && !HasName(fs, a.dir, a.name) && a.ino !in fs.nodes
    requires a.born.links == {(a.dir, a.name)} && a.born.node in {File([]), Dir(map[])}
    ensures Enabled(fs, a)
  {}

  lemma NamesAreLinked(fs: FileSystem, dir: Ino, name: Name)
    requires WellLinked(fs) && HasName(fs, dir, name)
    ensures LinkedBack(fs, dir, name)
  {}

  lemma {:induction false} FreshIno(used: set<Ino>) returns (ino: Ino)
    ensures ino !in used && forall i :: i in used ==> i < ino
  {
    if used == {} {
      ino := 0;
    } else {
      var i :| i in used;
      var rest := FreshIno(used - {i});
      assert forall j :: j in used ==> j == i || j in used - {i};
      ino := if rest <= i then i + 1 else rest;
    }
  }

  function Take(bytes: Bytes, limit: nat): Bytes {
    if |bytes| <= limit then bytes else bytes[..limit]
  }
}
