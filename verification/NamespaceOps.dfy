/** What each namespace operation does to names and records, and what undoes it
    (pkg/metadata/dirent.go). */
module NamespaceOps {
  import opened Common
  import opened Namespace

  /** The inode a name leads to. */
  function Target(s: FS, nm: Name): Option<nat> {
    if nm in s.names then Some(s.names[nm].val) else None
  }

  function Stat(s: FS, ino: nat): Option<Inode> {
    if ino in s.inodes then Some(s.inodes[ino].val) else None
  }

  /** Only these names and inodes may differ. */
  ghost predicate Touches(s: FS, s': FS, names: set<Name>, inos: set<nat>) {
    && (forall nm :: nm !in names ==> Target(s', nm) == Target(s, nm))
    && (forall ino :: ino !in inos ==> Stat(s', ino) == Stat(s, ino))
  }

  ghost predicate SameTree(s: FS, s': FS) {
    Touches(s, s', {}, {})
  }

  /** A record with its link count moved. */
  function Plus(rec: Option<Inode>, delta: int): Option<Inode>
    requires rec.Some? ==> rec.value.nlink + delta >= 0
  {
    if rec.Some? then Some(Inode(rec.value.dir, rec.value.nlink + delta)) else None
  }

  lemma PinnedInode(s: FS, ino: nat, v: Ver<Inode>)
    requires Inv(s) && InodePinned(s, ino, v)
    ensures Stat(s, ino) == Some(v.val)
  {
    Pins(s.seenInodes, s.inodes, s.rev, ino, v);
  }

  lemma PinnedName(s: FS, nm: Name, v: Ver<nat>)
    requires Inv(s) && NamePinned(s, nm, v)
    ensures Target(s, nm) == Some(v.val)
  {
    Pins(s.seenNames, s.names, s.rev, nm, v);
  }

  lemma PinnedDir(s: FS, dir: nat, v: Option<Ver<Inode>>)
    requires Inv(s) && DirPinned(s, dir, v)
    ensures Stat(s, dir) == if v.Some? then Some(v.value.val) else None
  {
    if v.Some? {
      PinnedInode(s, dir, v.value);
    }
  }

  lemma CreateDoes(s: FS, nm: Name, ino: nat, s': FS)
    requires Next(s, Create(nm, ino), s')
    ensures Target(s, nm) == None && Target(s', nm) == Some(ino)
    ensures Stat(s, ino) == None && Stat(s', ino) == Some(Inode(false, 1))
    ensures Touches(s, s', {nm}, {ino})
  {
  }

  lemma MkdirDoes(s: FS, nm: Name, ino: nat, pv: Option<Ver<Inode>>, s': FS)
    requires Inv(s) && Next(s, Mkdir(nm, ino, pv), s')
    ensures Target(s, nm) == None && Target(s', nm) == Some(ino) && ino != nm.parent
    ensures Stat(s, ino) == None && Stat(s', ino) == Some(Inode(true, 2))
    ensures Stat(s', nm.parent) == Plus(Stat(s, nm.parent), 1)
    ensures Touches(s, s', {nm}, {ino, nm.parent})
  {
    PinnedDir(s, nm.parent, pv);
    MkdirMoves(s, nm, ino, pv, s');
  }

  lemma MkdirMoves(s: FS, nm: Name, ino: nat, pv: Option<Ver<Inode>>, s': FS)
    requires Next(s, Mkdir(nm, ino, pv), s') && Stat(s, nm.parent) == if pv.Some? then Some(pv.value.val) else None
    ensures Target(s, nm) == None && Target(s', nm) == Some(ino) && ino != nm.parent
    ensures Stat(s, ino) == None && Stat(s', ino) == Some(Inode(true, 2))
    ensures Stat(s', nm.parent) == Plus(Stat(s, nm.parent), 1) && Touches(s, s', {nm}, {ino, nm.parent})
  {
  }

  lemma LinkDoes(s: FS, ino: nat, nm: Name, v: Ver<Inode>, s': FS)
    requires Inv(s) && Next(s, Link(ino, nm, v), s')
    ensures Target(s, nm) == None && Target(s', nm) == Some(ino)
    ensures Stat(s, ino).Some? && !Stat(s, ino).value.dir && Stat(s', ino) == Plus(Stat(s, ino), 1)
    ensures Touches(s, s', {nm}, {ino})
  {
    PinnedInode(s, ino, v);
  }

  /** One link goes with the name; the record of a file goes with the last one,
      unless the file is open here. */
  lemma UnlinkDoes(s: FS, nm: Name, dv: Ver<nat>, v: Ver<Inode>, open: bool, s': FS)
    requires Inv(s) && Next(s, Unlink(nm, dv, v, open), s')
    ensures Target(s, nm) == Some(dv.val) && Target(s', nm) == None && Stat(s, dv.val) == Some(v.val)
    ensures Stat(s', dv.val) == if v.val.dir || (v.val.nlink <= 1 && !open) then None
                                else Some(Inode(false, if v.val.nlink <= 1 then 0 else v.val.nlink - 1))
    ensures Touches(s, s', {nm}, {dv.val})
  {
    PinnedName(s, nm, dv);
    PinnedInode(s, dv.val, v);
    UnlinkMoves(s, nm, dv, v, open, s');
  }

  lemma UnlinkMoves(s: FS, nm: Name, dv: Ver<nat>, v: Ver<Inode>, open: bool, s': FS)
    requires Next(s, Unlink(nm, dv, v, open), s') && Stat(s, dv.val) == Some(v.val)
    ensures Target(s', nm) == None && Touches(s, s', {nm}, {dv.val})
    ensures Stat(s', dv.val) == if v.val.dir || (v.val.nlink <= 1 && !open) then None
                                else Some(Inode(false, if v.val.nlink <= 1 then 0 else v.val.nlink - 1))
  {
  }

  lemma RmdirDoes(s: FS, nm: Name, dv: Ver<nat>, v: Ver<Inode>, pv: Option<Ver<Inode>>, s': FS)
    requires Inv(s) && Next(s, Rmdir(nm, dv, v, pv), s')
    ensures Target(s, nm) == Some(dv.val) && Target(s', nm) == None && dv.val != nm.parent
    ensures (forall x :: Target(s, x).Some? ==> x.parent != dv.val) && Stat(s', dv.val) == None
    ensures Counts(s, nm.parent) && Stat(s', nm.parent) == Plus(Stat(s, nm.parent), -1)
    ensures Touches(s, s', {nm}, {dv.val, nm.parent})
  {
    PinnedName(s, nm, dv);
    PinnedDir(s, nm.parent, pv);
    ParentCounts(s, nm);
    RmdirMoves(s, nm, dv, v, pv, s');
  }

  lemma RmdirMoves(s: FS, nm: Name, dv: Ver<nat>, v: Ver<Inode>, pv: Option<Ver<Inode>>, s': FS)
    requires Next(s, Rmdir(nm, dv, v, pv), s') && Counts(s, nm.parent)
    requires Stat(s, nm.parent) == if pv.Some? then Some(pv.value.val) else None
    ensures Target(s', nm) == None && dv.val != nm.parent && Stat(s', dv.val) == None
    ensures Stat(s', nm.parent) == Plus(Stat(s, nm.parent), -1) && Touches(s, s', {nm}, {dv.val, nm.parent})
  {
  }

  /** The inode a rename replaces, if any. */
  function Victim(a: Action): set<nat>
    requires a.Rename?
  {
    if a.target.Some? then {a.target.value.0.val} else {}
  }

  /** The target is what the plan read, and records are what it compares. */
  ghost predicate AsRead(s: FS, a: Action)
    requires a.Rename?
  {
    && Target(s, a.dst) == (if a.target.Some? then Some(a.target.value.0.val) else None)
    && (a.target.Some? ==> Stat(s, a.target.value.0.val) == Some(a.target.value.1.val))
    && Stat(s, a.src.parent) == (if a.from.Some? then Some(a.from.value.val) else None)
    && Stat(s, a.dst.parent) == (if a.into.Some? then Some(a.into.value.val) else None)
    && Counts(s, a.src.parent) && Counts(s, a.dst.parent)
  }

  lemma RenameAsRead(s: FS, a: Action, s': FS)
    requires Inv(s) && a.Rename? && Next(s, a, s')
    ensures AsRead(s, a)
  {
    if a.target.Some? {
      PinnedName(s, a.dst, a.target.value.0);
      PinnedInode(s, a.target.value.0.val, a.target.value.1);
    }
    PinnedDir(s, a.src.parent, a.from);
    PinnedDir(s, a.dst.parent, a.into);
    ParentCounts(s, a.src);
    if a.dst.parent in s.inodes {
      DirCounts(s, a.dst.parent);
    }
  }

  /** The source name is gone, the target names the moved inode, and no other name
      leads anywhere else. */
  lemma RenameMovesName(s: FS, a: Action, s': FS)
    requires a.Rename? && Next(s, a, s')
    ensures Target(s, a.src).Some? && Target(s', a.src) == None && Target(s', a.dst) == Some(a.ino)
    ensures forall nm :: nm != a.src && nm != a.dst ==> Target(s', nm) == Target(s, nm)
  {
  }

  /** Moving a file changes no record but that of a file it replaces, which loses
      one link, and with the last one its record. */
  lemma RenameFileDoes(s: FS, a: Action, s': FS)
    requires Inv(s) && a.Rename? && Next(s, a, s') && !a.srcDir
    ensures Target(s', a.src) == None && Target(s', a.dst) == Some(a.ino)
    ensures Touches(s, s', {a.src, a.dst}, Victim(a))
    ensures a.target.Some? ==>
              var ino := a.target.value.0.val;
              && Target(s, a.dst) == Some(ino) && Stat(s, ino).Some? && !Stat(s, ino).value.dir
              && Stat(s', ino) == if Stat(s, ino).value.nlink <= 1 then None else Plus(Stat(s, ino), -1)
  {
    RenameAsRead(s, a, s');
    FileMoves(s, a, s');
  }

  lemma FileMoves(s: FS, a: Action, s': FS)
    requires a.Rename? && Next(s, a, s') && !a.srcDir && AsRead(s, a)
    ensures Target(s', a.src) == None && Target(s', a.dst) == Some(a.ino)
    ensures Touches(s, s', {a.src, a.dst}, Victim(a))
    ensures a.target.Some? ==>
              var ino := a.target.value.0.val;
              && Target(s, a.dst) == Some(ino) && Stat(s, ino).Some? && !Stat(s, ino).value.dir
              && Stat(s', ino) == if Stat(s, ino).value.nlink <= 1 then None else Plus(Stat(s, ino), -1)
  {
  }

  /** Moving a directory takes one from the count of the parent it leaves and adds
      one to that of the parent it enters; a directory it replaces was empty, goes
      with its record, and is counted no more. */
  lemma RenameDirDoes(s: FS, a: Action, s': FS)
    requires Inv(s) && a.Rename? && Next(s, a, s') && a.srcDir
    ensures Target(s', a.src) == None && Target(s', a.dst) == Some(a.ino)
    ensures Touches(s, s', {a.src, a.dst}, Victim(a) + {a.src.parent, a.dst.parent})
    ensures a.target.Some? ==>
              var ino := a.target.value.0.val;
              && Target(s, a.dst) == Some(ino) && Stat(s', ino) == None && ino != a.src.parent && ino != a.dst.parent
              && forall x :: Target(s, x).Some? ==> x.parent != ino
    ensures Counts(s, a.src.parent) && Counts(s, a.dst.parent)
    ensures var gone := if a.target.Some? then 1 else 0;
            if a.src.parent == a.dst.parent then Stat(s', a.dst.parent) == Plus(Stat(s, a.dst.parent), -gone)
            else Stat(s', a.src.parent) == Plus(Stat(s, a.src.parent), -1)
                 && Stat(s', a.dst.parent) == Plus(Stat(s, a.dst.parent), 1 - gone)
  {
    RenameAsRead(s, a, s');
    ReplacesEmpty(s, a, s');
    DirMoves(s, a, s');
  }

  lemma ReplacesEmpty(s: FS, a: Action, s': FS)
    requires a.Rename? && Next(s, a, s') && a.srcDir
    ensures a.target.Some? ==>
              var ino := a.target.value.0.val;
              ino != a.src.parent && ino != a.dst.parent && forall x :: Target(s, x).Some? ==> x.parent != ino
  {
    assert Target(s, a.src).Some?;
  }

  lemma DirMoves(s: FS, a: Action, s': FS)
    requires a.Rename? && Next(s, a, s') && a.srcDir && AsRead(s, a)
    requires a.target.Some? ==> a.target.value.0.val != a.src.parent && a.target.value.0.val != a.dst.parent
    ensures Target(s', a.src) == None && Target(s', a.dst) == Some(a.ino)
    ensures Touches(s, s', {a.src, a.dst}, Victim(a) + {a.src.parent, a.dst.parent})
    ensures a.target.Some? ==> Target(s, a.dst) == Some(a.target.value.0.val) && Stat(s', a.target.value.0.val) == None
    ensures var gone := if a.target.Some? then 1 else 0;
            if a.src.parent == a.dst.parent then Stat(s', a.dst.parent) == Plus(Stat(s, a.dst.parent), -gone)
            else Stat(s', a.src.parent) == Plus(Stat(s, a.src.parent), -1)
                 && Stat(s', a.dst.parent) == Plus(Stat(s, a.dst.parent), 1 - gone)
  {
  }

  lemma DropOrphanDoes(s: FS, ino: nat, v: Ver<Inode>, s': FS)
    requires Next(s, DropOrphan(ino, v), s')
    ensures Stat(s', ino) == None && Touches(s, s', {}, {ino})
  {
  }

  lemma TouchDoes(s: FS, ino: nat, v: Ver<Inode>, s': FS)
    requires Inv(s) && Next(s, Touch(ino, v), s')
    ensures SameTree(s, s')
  {
    PinnedInode(s, ino, v);
  }

  // --- What undoes what ----------------------------------------------------------------

  /** The name is new and adds a link to the file. */
  ghost predicate Gains(s: FS, s': FS, nm: Name, ino: nat) {
    && Target(s, nm) == None && Target(s', nm) == Some(ino)
    && Stat(s, ino).Some? && !Stat(s, ino).value.dir && Stat(s', ino) == Plus(Stat(s, ino), 1)
    && Touches(s, s', {nm}, {ino})
  }

  /** The name goes and takes a link of the file along. */
  ghost predicate Loses(s: FS, s': FS, nm: Name, ino: nat, open: bool) {
    && Target(s, nm) == Some(ino) && Target(s', nm) == None && Stat(s, ino).Some?
    && Touches(s, s', {nm}, {ino})
    && var rec := Stat(s, ino).value;
       Stat(s', ino) == if rec.dir || (rec.nlink <= 1 && !open) then None
                        else Some(Inode(false, if rec.nlink <= 1 then 0 else rec.nlink - 1))
  }

  lemma LinkGains(s: FS, ino: nat, nm: Name, v: Ver<Inode>, s': FS)
    requires Inv(s) && Next(s, Link(ino, nm, v), s')
    ensures Inv(s') && Gains(s, s', nm, ino)
  {
    LinkInv(s, ino, nm, v, s');
    LinkDoes(s, ino, nm, v, s');
  }

  lemma UnlinkLoses(s: FS, nm: Name, dv: Ver<nat>, v: Ver<Inode>, open: bool, s': FS)
    requires Inv(s) && Next(s, Unlink(nm, dv, v, open), s')
    ensures Loses(s, s', nm, dv.val, open)
  {
    UnlinkDoes(s, nm, dv, v, open, s');
  }

  lemma GainedAndLost(s: FS, s1: FS, s2: FS, nm: Name, ino: nat, other: nat, open: bool)
    requires Gains(s, s1, nm, ino) && Loses(s1, s2, nm, other, open)
    ensures SameTree(s, s2) <==> Stat(s, ino) != Some(Inode(false, 0)) || open
  {
    if Stat(s, ino) != Some(Inode(false, 0)) || open {
      forall x ensures Target(s2, x) == Target(s, x) {
      }
      forall i ensures Stat(s2, i) == Stat(s, i) {
      }
    } else {
      assert Stat(s2, ino) != Stat(s, ino);
    }
  }

  /** Unlinking a name that was linked leaves the tree as it was, unless the file
      had no link to begin with and is not open. */
  lemma UnlinkUndoesLink(s: FS, ino: nat, nm: Name, v: Ver<Inode>, s1: FS, dv: Ver<nat>, v1: Ver<Inode>, open: bool, s2: FS)
    requires Inv(s) && Next(s, Link(ino, nm, v), s1) && Next(s1, Unlink(nm, dv, v1, open), s2)
    ensures SameTree(s, s2) <==> Stat(s, ino) != Some(Inode(false, 0)) || open
  {
    LinkGains(s, ino, nm, v, s1);
    UnlinkLoses(s1, nm, dv, v1, open, s2);
    GainedAndLost(s, s1, s2, nm, ino, dv.val, open);
  }

  /** The name and the directory are new, and the parent counts it. */
  ghost predicate Grows(s: FS, s': FS, nm: Name, ino: nat) {
    && Target(s, nm) == None && Target(s', nm) == Some(ino) && Stat(s, ino) == None && ino != nm.parent
    && Stat(s', nm.parent) == Plus(Stat(s, nm.parent), 1) && Touches(s, s', {nm}, {ino, nm.parent})
  }

  ghost predicate Shrinks(s: FS, s': FS, nm: Name, ino: nat) {
    && Target(s, nm) == Some(ino) && Target(s', nm) == None && Stat(s', ino) == None && ino != nm.parent && Counts(s, nm.parent)
    && Stat(s', nm.parent) == Plus(Stat(s, nm.parent), -1) && Touches(s, s', {nm}, {ino, nm.parent})
  }

  lemma MkdirGrows(s: FS, nm: Name, ino: nat, pv: Option<Ver<Inode>>, s': FS)
    requires Inv(s) && Next(s, Mkdir(nm, ino, pv), s')
    ensures Inv(s') && Grows(s, s', nm, ino)
  {
    MkdirInv(s, nm, ino, pv, s');
    MkdirDoes(s, nm, ino, pv, s');
  }

  lemma RmdirShrinks(s: FS, nm: Name, dv: Ver<nat>, v: Ver<Inode>, pv: Option<Ver<Inode>>, s': FS)
    requires Inv(s) && Next(s, Rmdir(nm, dv, v, pv), s')
    ensures Shrinks(s, s', nm, dv.val)
  {
    RmdirDoes(s, nm, dv, v, pv, s');
  }

  lemma GrownAndShrunk(s: FS, s1: FS, s2: FS, nm: Name, ino: nat, other: nat)
    requires Grows(s, s1, nm, ino) && Shrinks(s1, s2, nm, other)
    ensures SameTree(s, s2)
  {
    forall x ensures Target(s2, x) == Target(s, x) {
    }
    forall i ensures Stat(s2, i) == Stat(s, i) {
    }
  }

  /** Removing a directory just made leaves the tree as it was. */
  lemma RmdirUndoesMkdir(s: FS, nm: Name, ino: nat, pv: Option<Ver<Inode>>, s1: FS,
                         dv: Ver<nat>, v: Ver<Inode>, pv1: Option<Ver<Inode>>, s2: FS)
    requires Inv(s) && Next(s, Mkdir(nm, ino, pv), s1) && Next(s1, Rmdir(nm, dv, v, pv1), s2)
    ensures SameTree(s, s2)
  {
    MkdirGrows(s, nm, ino, pv, s1);
    RmdirShrinks(s1, nm, dv, v, pv1, s2);
    GrownAndShrunk(s, s1, s2, nm, ino, dv.val);
  }

  /** The name moves to one that was free; a directory's parents count it where it
      is. */
  ghost predicate Moves(s: FS, s': FS, src: Name, dst: Name, ino: nat, dir: bool) {
    && src != dst && Target(s, src) == Some(ino) && Target(s, dst) == None
    && Target(s', src) == None && Target(s', dst) == Some(ino)
    && (if dir && src.parent != dst.parent then
          && Counts(s, src.parent) && Stat(s', src.parent) == Plus(Stat(s, src.parent), -1)
          && Stat(s', dst.parent) == Plus(Stat(s, dst.parent), 1) && Touches(s, s', {src, dst}, {src.parent, dst.parent})
        else Touches(s, s', {src, dst}, {}))
  }

  lemma RenameMoves(s: FS, a: Action, s': FS)
    requires Inv(s) && a.Rename? && Next(s, a, s') && Sound(s, a) && Target(s, a.dst) == None
    ensures Inv(s') && Moves(s, s', a.src, a.dst, a.ino, a.srcDir)
  {
    StepKeepsIff(s, a, s');
    RenameAsRead(s, a, s');
    MovesToFree(s, a, s');
  }

  lemma MovesToFree(s: FS, a: Action, s': FS)
    requires a.Rename? && Next(s, a, s') && AsRead(s, a) && Target(s, a.src) == Some(a.ino) && Target(s, a.dst) == None
    ensures Moves(s, s', a.src, a.dst, a.ino, a.srcDir)
  {
    if a.srcDir {
      DirMoves(s, a, s');
    } else {
      FileMoves(s, a, s');
    }
  }

  lemma MovedBack(s: FS, s1: FS, s2: FS, src: Name, dst: Name, ino: nat, dir: bool)
    requires Moves(s, s1, src, dst, ino, dir) && Moves(s1, s2, dst, src, ino, dir)
    ensures SameTree(s, s2)
  {
    forall x ensures Target(s2, x) == Target(s, x) {
    }
    forall i ensures Stat(s2, i) == Stat(s, i) {
    }
  }

  /** Moving a name to a free one and back leaves the tree as it was. */
  lemma RenameUndoesRename(s: FS, a: Action, s1: FS, b: Action, s2: FS)
    requires Inv(s) && a.Rename? && Next(s, a, s1) && Sound(s, a) && Target(s, a.dst) == None
    requires b.Rename? && Next(s1, b, s2) && b.src == a.dst && b.dst == a.src && b.ino == a.ino && b.srcDir == a.srcDir
    ensures SameTree(s, s2)
  {
    RenameMoves(s, a, s1);
    RenameMoves(s1, b, s2);
    MovedBack(s, s1, s2, a.src, a.dst, a.ino, a.srcDir);
  }

  /** A directory whose record is there has a link to spare. */
  predicate Counts(s: FS, dir: nat) {
    Stat(s, dir).Some? ==> Stat(s, dir).value.nlink >= 2
  }

  lemma ParentCounts(s: FS, nm: Name)
    requires Inv(s) && nm in s.names
    ensures Counts(s, nm.parent)
  {
    if nm.parent in s.inodes {
      DirCounts(s, nm.parent);
    }
  }

  /** A directory that has a record counts itself and its own name. */
  lemma DirCounts(s: FS, dir: nat)
    requires Inv(s) && dir in s.inodes && IsDir(s.born, dir)
    ensures s.inodes[dir].val.dir && s.inodes[dir].val.nlink >= 2
  {
    assert LinksOk(s.names, s.born, dir, s.inodes[dir].val);
  }
}
