/** Runs of ordinary operations that break what the namespace promises, each by
    one operation that is not sound (pkg/metadata/dirent.go). */
module NamespaceRuns {
  import opened Common
  import opened Namespace

  function Last(run: seq<FS>): FS
    requires run != []
  {
    run[|run| - 1]
  }

  ghost predicate SoundAt(run: seq<FS>, acts: seq<Action>, i: nat)
    requires i < |acts| && i < |run|
  {
    Sound(run[i], acts[i])
  }

  /** A run all of whose actions are sound. */
  ghost predicate Quiet(run: seq<FS>, acts: seq<Action>) {
    IsRun(run, acts) && forall i :: 0 <= i < |acts| ==> SoundAt(run, acts, i)
  }

  /** What is stored is on record. */
  predicate Seen(s: FS) {
    Versions(s.names) <= s.seenNames && Versions(s.inodes) <= s.seenInodes
  }

  lemma Begins() returns (run: seq<FS>)
    ensures Quiet(run, []) && Last(run) == Start() && Seen(Start())
  {
    run := [Start()];
  }

  lemma OneMore(run: seq<FS>, acts: seq<Action>, a: Action, s': FS)
    requires IsRun(run, acts) && Next(Last(run), a, s')
    ensures IsRun(run + [s'], acts + [a])
  {
    var run', acts' := run + [s'], acts + [a];
    forall i | 0 <= i < |acts'| ensures StepAt(run', acts', i) {
      if i < |acts| {
        assert StepAt(run, acts, i);
      }
    }
  }

  lemma OneMoreSound(run: seq<FS>, acts: seq<Action>, a: Action, s': FS)
    requires |run| == |acts| + 1 && (forall i :: 0 <= i < |acts| ==> SoundAt(run, acts, i)) && Sound(Last(run), a)
    ensures forall i :: 0 <= i < |acts| + 1 ==> SoundAt(run + [s'], acts + [a], i)
  {
    forall i | 0 <= i < |acts| + 1 ensures SoundAt(run + [s'], acts + [a], i) {
      assert i < |acts| ==> SoundAt(run, acts, i);
    }
  }

  lemma OneMoreQuiet(run: seq<FS>, acts: seq<Action>, a: Action, s': FS)
    requires Quiet(run, acts) && Next(Last(run), a, s') && Sound(Last(run), a)
    ensures Quiet(run + [s'], acts + [a])
  {
    OneMore(run, acts, a, s');
    OneMoreSound(run, acts, a, s');
  }

  /** A quiet run is right up to its end; one more step is right if it is sound. */
  lemma EndsRight(run: seq<FS>, acts: seq<Action>, a: Action, s': FS)
    requires Quiet(run, acts) && Next(Last(run), a, s')
    ensures Inv(Last(run)) && (Inv(s') <==> Sound(Last(run), a))
  {
    forall i | 0 <= i < |acts| ensures Sound(run[i], acts[i]) {
      assert SoundAt(run, acts, i);
    }
    RunKeeps(run, acts, |acts|);
    StepKeepsIff(Last(run), a, s');
  }

  // --- Single operations -----------------------------------------------------------------------

  lemma Creates(s: FS, nm: Name, ino: nat) returns (s': FS)
    requires nm !in s.names && IsDir(s.born, nm.parent) && ino !in s.born && ino !in s.inodes
    ensures Next(s, Create(nm, ino), s') && Seen(s') && s.seenNames <= s'.seenNames && s.seenInodes <= s'.seenInodes
    ensures s'.names == s.names[nm := Ver(ino, s.rev + 1)] && s'.born == s.born[ino := false]
    ensures s'.inodes == s.inodes[ino := Ver(Inode(false, 1), s.rev + 1)]
  {
    var r := s.rev + 1;
    s' := Committed(s, s.names[nm := Ver(ino, r)], s.inodes[ino := Ver(Inode(false, 1), r)], s.born[ino := false]);
  }

  /** A name goes, the inode's record read as it is stored. */
  lemma Unlinks(s: FS, nm: Name, open: bool) returns (a: Action, s': FS)
    requires Seen(s) && nm in s.names && s.names[nm].val in s.inodes
    ensures a == Unlink(nm, s.names[nm], s.inodes[s.names[nm].val], open) && Next(s, a, s')
    ensures Seen(s') && s.seenNames <= s'.seenNames && s.seenInodes <= s'.seenInodes
    ensures s'.names == s.names - {nm} && s'.born == s.born
    ensures s'.inodes == Unlinked(s.inodes, s.names[nm].val, s.inodes[s.names[nm].val].val, open, s.rev + 1)
  {
    var dv := s.names[nm];
    var v := s.inodes[dv.val];
    assert (nm, dv) in Versions(s.names) && (dv.val, v) in Versions(s.inodes);
    a := Unlink(nm, dv, v, open);
    s' := Committed(s, s.names - {nm}, Unlinked(s.inodes, dv.val, v.val, open, s.rev + 1), s.born);
  }

  lemma Links(s: FS, nm: Name, ino: nat) returns (a: Action, s': FS)
    requires Seen(s) && nm !in s.names && IsDir(s.born, nm.parent) && ino in s.inodes && !s.inodes[ino].val.dir
    ensures a == Link(ino, nm, s.inodes[ino]) && Next(s, a, s') && Seen(s') && s.seenInodes <= s'.seenInodes
    ensures ino in s'.inodes && s'.inodes[ino].val.nlink == s.inodes[ino].val.nlink + 1
  {
    var v := s.inodes[ino];
    assert (ino, v) in Versions(s.inodes);
    a := Link(ino, nm, v);
    s' := Committed(s, s.names[nm := Ver(ino, s.rev + 1)], s.inodes[ino := Ver(Inode(false, v.val.nlink + 1), s.rev + 1)], s.born);
  }

  /** The parent as its record is stored, or not stored. */
  function Parent(s: FS, dir: nat): Option<Ver<Inode>> {
    if dir in s.inodes then Some(s.inodes[dir]) else None
  }

  lemma ParentPinned(s: FS, dir: nat)
    requires Seen(s)
    ensures DirPinned(s, dir, Parent(s, dir))
  {
    assert dir in s.inodes ==> (dir, s.inodes[dir]) in Versions(s.inodes);
  }

  lemma Mkdirs(s: FS, nm: Name, ino: nat) returns (s': FS)
    requires Seen(s) && nm !in s.names && IsDir(s.born, nm.parent) && ino !in s.born && ino !in s.inodes && ino != ROOT
    ensures Next(s, Mkdir(nm, ino, Parent(s, nm.parent)), s') && Seen(s') && s.seenInodes <= s'.seenInodes
    ensures s'.names == s.names[nm := Ver(ino, s.rev + 1)] && s'.born == s.born[ino := true]
    ensures s'.inodes == Adjusted(s.inodes[ino := Ver(Inode(true, 2), s.rev + 1)], nm.parent, Parent(s, nm.parent), 1, s.rev + 1)
  {
    var r := s.rev + 1;
    ParentPinned(s, nm.parent);
    s' := Committed(s, s.names[nm := Ver(ino, r)],
                    Adjusted(s.inodes[ino := Ver(Inode(true, 2), r)], nm.parent, Parent(s, nm.parent), 1, r), s.born[ino := true]);
  }

  // --- A rename of a name that has come to mean another file -----------------------------------

  lemma OneFile(nm: Name) returns (run: seq<FS>, acts: seq<Action>)
    requires nm.parent == ROOT
    ensures Quiet(run, acts) && |acts| == 1 && Seen(Last(run))
    ensures Last(run).names.Keys == {nm} && Last(run).names[nm].val == 2 && (nm, Last(run).names[nm]) in Last(run).seenNames
    ensures Last(run).inodes.Keys == {ROOT, 2} && Last(run).inodes[2].val == Inode(false, 1)
    ensures Last(run).born == map[ROOT := true, 2 := false]
  {
    run := Begins();
    var s := Creates(Last(run), nm, 2);
    OneMoreQuiet(run, [], Create(nm, 2), s);
    run, acts := run + [s], [] + [Create(nm, 2)];
    assert (nm, s.names[nm]) in Versions(s.names);
  }

  lemma FileGone(nm: Name, open: bool) returns (run: seq<FS>, acts: seq<Action>)
    requires nm.parent == ROOT
    ensures Quiet(run, acts) && |acts| == 2 && acts[1].Unlink? && Seen(Last(run)) && Last(run).names == map[]
    ensures Last(run).inodes.Keys == (if open then {ROOT, 2} else {ROOT})
    ensures open ==> Last(run).inodes[2].val == Inode(false, 0)
    ensures Last(run).born == map[ROOT := true, 2 := false]
    ensures exists r: nat :: (nm, Ver(2, r)) in Last(run).seenNames
  {
    run, acts := OneFile(nm);
    var v := Last(run).names[nm];
    var a, s := Unlinks(Last(run), nm, open);
    OneMoreQuiet(run, acts, a, s);
    run, acts := run + [s], acts + [a];
    assert (nm, Ver(2, v.rev)) in s.seenNames;
  }

  lemma NameReused(nm: Name) returns (run: seq<FS>, acts: seq<Action>)
    requires nm.parent == ROOT
    ensures Quiet(run, acts) && |acts| == 3 && Seen(Last(run)) && nm in Last(run).names
    ensures Last(run).names.Keys == {nm} && Last(run).names[nm].val == 3
    ensures ROOT in Last(run).inodes && 2 !in Last(run).inodes && IsDir(Last(run).born, ROOT) && !IsDir(Last(run).born, 2)
    ensures exists r: nat :: (nm, Ver(2, r)) in Last(run).seenNames
  {
    run, acts := FileGone(nm, false);
    var r: nat :| (nm, Ver(2, r)) in Last(run).seenNames;
    var s := Creates(Last(run), nm, 3);
    OneMoreQuiet(run, acts, Create(nm, 3), s);
    run, acts := run + [s], acts + [Create(nm, 3)];
    assert (nm, Ver(2, r)) in s.seenNames;
  }

  lemma MovesFile(s: FS, src: Name, dst: Name, ino: nat) returns (a: Action, s': FS)
    requires Seen(s) && src != dst && src in s.names && dst !in s.names && IsDir(s.born, dst.parent) && !IsDir(s.born, ino)
    ensures a.Rename? && a.src == src && a.ino == ino && Next(s, a, s')
  {
    ParentPinned(s, src.parent);
    ParentPinned(s, dst.parent);
    a := Rename(src, dst, ino, false, None, Parent(s, src.parent), Parent(s, dst.parent));
    s' := Committed(s, (s.names - {src})[dst := Ver(ino, s.rev + 1)], AfterRename(s.inodes, a, s.rev + 1), s.born);
  }

  /** File 2 is created as `a`, a rename of it to `c` is planned, `a` is removed
      and created again as file 3. The rename still commits, and breaks the
      counts. */
  lemma StaleRenameHappens() returns (run: seq<FS>, acts: seq<Action>, s': FS, move: Action)
    ensures Quiet(run, acts) && |acts| == 3 && IsRun(run + [s'], acts + [move])
    ensures move.Rename? && exists r: nat :: (move.src, Ver(move.ino, r)) in Last(run).seenNames
    ensures Inv(Last(run)) && !Inv(s')
  {
    run, acts := NameReused(Name(ROOT, "a"));
    move, s' := MovesFile(Last(run), Name(ROOT, "a"), Name(ROOT, "c"), 2);
    OneMore(run, acts, move, s');
    EndsRight(run, acts, move, s');
  }

  // --- A directory unlinked like a file --------------------------------------------------------

  lemma OneDir(nm: Name) returns (run: seq<FS>, acts: seq<Action>)
    requires nm.parent == ROOT
    ensures Quiet(run, acts) && |acts| == 1 && acts[0].Mkdir? && Seen(Last(run)) && Last(run).names.Keys == {nm}
    ensures Last(run).names[nm].val == 2 && Last(run).inodes.Keys == {ROOT, 2} && Last(run).inodes[2].val == Inode(true, 2)
    ensures Last(run).born == map[ROOT := true, 2 := true]
  {
    run := Begins();
    var a := Mkdir(nm, 2, Parent(Last(run), ROOT));
    var s := Mkdirs(Last(run), nm, 2);
    OneMoreQuiet(run, [], a, s);
    run, acts := run + [s], [] + [a];
  }

  /** A directory is made in the root and its name unlinked: the root still
      counts it. */
  lemma UnlinkedDirHappens() returns (run: seq<FS>, acts: seq<Action>, s': FS, a: Action)
    ensures Quiet(run, acts) && |acts| == 1 && acts[0].Mkdir? && a.Unlink? && IsRun(run + [s'], acts + [a])
    ensures Inv(Last(run)) && !Inv(s')
  {
    run, acts := OneDir(Name(ROOT, "d"));
    a, s' := Unlinks(Last(run), Name(ROOT, "d"), false);
    OneMore(run, acts, a, s');
    EndsRight(run, acts, a, s');
  }

  // --- An orphan linked again ------------------------------------------------------------------

  lemma OrphanRelinked() returns (run: seq<FS>, acts: seq<Action>, v: Ver<Inode>)
    ensures Quiet(run, acts) && |acts| == 3 && acts[1].Unlink? && acts[2].Link?
    ensures (2, v) in Last(run).seenInodes && v.val == Inode(false, 0)
    ensures 2 in Last(run).inodes && Last(run).inodes[2].val.nlink == 1
  {
    run, acts := FileGone(Name(ROOT, "a"), true);
    v := Last(run).inodes[2];
    assert (2, v) in Versions(Last(run).inodes);
    var a, s := Links(Last(run), Name(ROOT, "b"), 2);
    OneMoreQuiet(run, acts, a, s);
    run, acts := run + [s], acts + [a];
  }

  /** A file is unlinked while it is open, read as an orphan, and linked again
      under another name; then the record is dropped, and the name is left. */
  lemma RelinkedOrphanHappens() returns (run: seq<FS>, acts: seq<Action>, s': FS, a: Action)
    ensures Quiet(run, acts) && |acts| == 3 && acts[1].Unlink? && acts[2].Link?
    ensures a.DropOrphan? && IsRun(run + [s'], acts + [a]) && Inv(Last(run)) && !Inv(s')
  {
    var v;
    run, acts, v := OrphanRelinked();
    var s := Last(run);
    a := DropOrphan(2, v);
    s' := Committed(s, s.names, s.inodes - {2}, s.born);
    OneMore(run, acts, a, s');
    EndsRight(run, acts, a, s');
  }
}
