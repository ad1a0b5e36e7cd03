/** Runs that tie the directory tree into a knot, or leave a directory hanging
    under nothing (pkg/metadata/dirent.go AtomicRename, adjustDirNlink). */
module TreeRuns {
  import opened Common
  import opened Namespace
  import opened DirTree
  import opened NamespaceRuns

  predicate NoRename(acts: seq<Action>) {
    forall i :: 0 <= i < |acts| ==> !acts[i].Rename?
  }

  /** Without renames the tree is a tree at the end of every quiet run. */
  lemma QuietTree(run: seq<FS>, acts: seq<Action>)
    requires Quiet(run, acts) && NoRename(acts)
    ensures TreeOk(Last(run)) && Inv(Last(run)) && Careful(run, acts, |acts|)
  {
    forall i | 0 <= i < |acts| ensures Sound(run[i], acts[i]) && Checked(run[i], acts[i]) {
      assert SoundAt(run, acts, i) && !acts[i].Rename?;
    }
    TreeAlways(run, acts, |acts|);
    RunKeeps(run, acts, |acts|);
  }

  // --- A directory made where its parent is gone -----------------------------------------------

  lemma Rmdirs(s: FS, nm: Name) returns (a: Action, s': FS)
    requires Seen(s) && nm in s.names && s.names[nm].val in s.inodes && s.inodes[s.names[nm].val].val.dir
    requires DirEmpty(s.names, s.names[nm].val)
    ensures a.Rmdir? && Next(s, a, s') && Seen(s')
    ensures s'.names == s.names - {nm} && s'.born == s.born
    ensures s'.inodes == Adjusted(s.inodes - {s.names[nm].val}, nm.parent, Parent(s, nm.parent), -1, s.rev + 1)
  {
    var dv := s.names[nm];
    var v := s.inodes[dv.val];
    assert (nm, dv) in Versions(s.names) && (dv.val, v) in Versions(s.inodes);
    ParentPinned(s, nm.parent);
    a := Rmdir(nm, dv, v, Parent(s, nm.parent));
    s' := Committed(s, s.names - {nm}, Adjusted(s.inodes - {dv.val}, nm.parent, Parent(s, nm.parent), -1, s.rev + 1), s.born);
  }

  lemma DirGone(nm: Name) returns (run: seq<FS>, acts: seq<Action>)
    requires nm.parent == ROOT
    ensures Quiet(run, acts) && NoRename(acts) && |acts| == 2 && acts[0].Mkdir? && acts[1].Rmdir? && Seen(Last(run))
    ensures Last(run).names == map[] && Last(run).inodes.Keys == {ROOT} && Last(run).born == map[ROOT := true, 2 := true]
  {
    run, acts := OneDir(nm);
    var a, s := Rmdirs(Last(run), nm);
    OneMoreQuiet(run, acts, a, s);
    run, acts := run + [s], acts + [a];
  }

  /** Directory 2 is made and removed; a directory is made in it by a plan that
      finds no record to count in, and compares none. Both trees are sound, and
      the new directory is under no directory there is. */
  lemma DetachedDirHappens() returns (run: seq<FS>, acts: seq<Action>, s': FS, a: Action)
    ensures Quiet(run, acts) && |acts| == 2 && acts[0].Mkdir? && acts[1].Rmdir? && IsRun(run + [s'], acts + [a])
    ensures a.Mkdir? && a.pv == None && Sound(Last(run), a) && Checked(Last(run), a)
    ensures Attached(Last(run)) && TreeOk(s') && Inv(s') && !Attached(s')
  {
    run, acts := DirGone(Name(ROOT, "d"));
    var s := Last(run);
    QuietTree(run, acts);
    HousedIsAttached(s);
    a := Mkdir(Name(2, "e"), 3, Parent(s, 2));
    s' := Mkdirs(s, Name(2, "e"), 3);
    OneMore(run, acts, a, s');
    EndsRight(run, acts, a, s');
    StepKeepsTreeIff(s, a, s');
    AttachedKeptIff(s, a, s');
  }

  // --- Two renames planned on one tree -----------------------------------------------------------

  const X := Name(ROOT, "x")
  const Y := Name(ROOT, "y")
  const A := Name(2, "a")
  const B := Name(3, "b")

  /** Directories /x, /y, /x/a and /y/b, numbered 2 to 5. */
  ghost predicate FourDirs(s: FS) {
    && s.names.Keys == {X, Y, A, B}
    && s.names[X].val == 2 && s.names[Y].val == 3 && s.names[A].val == 4 && s.names[B].val == 5
    && s.inodes.Keys == {1, 2, 3, 4, 5} && (forall x :: x in s.inodes ==> s.inodes[x].val.dir)
    && s.born == map[1 := true, 2 := true, 3 := true, 4 := true, 5 := true]
    && Seen(s)
  }

  lemma ThenMkdirs(run: seq<FS>, acts: seq<Action>, nm: Name, ino: nat) returns (s': FS, a: Action)
    requires Quiet(run, acts) && NoRename(acts) && Seen(Last(run)) && nm !in Last(run).names && IsDir(Last(run).born, nm.parent)
    requires ino !in Last(run).born && ino !in Last(run).inodes && ino != ROOT && nm.parent in Last(run).inodes
    requires forall x :: x in Last(run).inodes ==> Last(run).inodes[x].val.dir
    ensures Quiet(run + [s'], acts + [a]) && NoRename(acts + [a]) && Seen(s')
    ensures s'.names == Last(run).names[nm := Ver(ino, Last(run).rev + 1)] && s'.born == Last(run).born[ino := true]
    ensures s'.inodes.Keys == Last(run).inodes.Keys + {ino} && forall x :: x in s'.inodes ==> s'.inodes[x].val.dir
  {
    a := Mkdir(nm, ino, Parent(Last(run), nm.parent));
    s' := Mkdirs(Last(run), nm, ino);
    OneMoreQuiet(run, acts, a, s');
  }

  lemma MakeTwo() returns (run: seq<FS>, acts: seq<Action>)
    ensures Quiet(run, acts) && NoRename(acts) && |acts| == 2 && Seen(Last(run)) && Last(run).names.Keys == {X, Y}
    ensures Last(run).names[X].val == 2 && Last(run).names[Y].val == 3
    ensures Last(run).inodes.Keys == {1, 2, 3} && forall x :: x in Last(run).inodes ==> Last(run).inodes[x].val.dir
    ensures Last(run).born == map[1 := true, 2 := true, 3 := true]
  {
    run := Begins();
    acts := [];
    var s, a := ThenMkdirs(run, acts, X, 2);
    run, acts := run + [s], acts + [a];
    s, a := ThenMkdirs(run, acts, Y, 3);
    run, acts := run + [s], acts + [a];
  }

  lemma MakeFour() returns (run: seq<FS>, acts: seq<Action>)
    ensures Quiet(run, acts) && NoRename(acts) && |acts| == 4 && FourDirs(Last(run))
  {
    run, acts := MakeTwo();
    var s, a := ThenMkdirs(run, acts, A, 4);
    run, acts := run + [s], acts + [a];
    s, a := ThenMkdirs(run, acts, B, 5);
    run, acts := run + [s], acts + [a];
  }

  /** A move of a directory planned on `s`: over nothing, both parents read. */
  function Move(s: FS, src: Name, dst: Name, ino: nat): Action {
    Rename(src, dst, ino, true, None, Parent(s, src.parent), Parent(s, dst.parent))
  }

  lemma Moves(s: FS, a: Action) returns (s': FS)
    requires a.Rename? && a.srcDir && a.target == None && a.src != a.dst && a.src in s.names && a.dst !in s.names
    requires IsDir(s.born, a.dst.parent) && IsDir(s.born, a.ino)
    requires DirPinned(s, a.src.parent, a.from) && DirPinned(s, a.dst.parent, a.into)
    ensures Next(s, a, s') && s'.born == s.born && s'.names == (s.names - {a.src})[a.dst := Ver(a.ino, s.rev + 1)]
    ensures s'.inodes == AfterRename(s.inodes, a, s.rev + 1) && s.seenInodes <= s'.seenInodes
  {
    s' := Committed(s, (s.names - {a.src})[a.dst := Ver(a.ino, s.rev + 1)], AfterRename(s.inodes, a, s.rev + 1), s.born);
  }

  /** A move touches its two parents' records only. */
  lemma MoveSpares(s: FS, a: Action, r: nat, x: nat)
    requires a.Rename? && a.target == None && x in s.inodes && x != a.src.parent && x != a.dst.parent
    ensures x in AfterRename(s.inodes, a, r) && AfterRename(s.inodes, a, r)[x] == s.inodes[x]
  {
  }

  function Four(): Parents {
    map[2 := 1, 3 := 1, 4 := 2, 5 := 3]
  }

  lemma FourIsTree(s: FS)
    requires FourDirs(s)
    ensures IsTree(Four(), s.names, s.born)
  {
    forall d | d in Four() ensures Named(s.names, s.born, d, Four()[d]) {
      var nm := if d == 2 then X else if d == 3 then Y else if d == 4 then A else B;
      assert nm in s.names && s.names[nm].val == d && nm.parent == Four()[d];
    }
  }

  /** A chain of three that does not meet `top`. */
  lemma ShortChain(parent: Parents, x: nat, y: nat, z: nat, top: nat)
    requires x in parent && parent[x] == y && y in parent && parent[y] == z && z !in parent
    requires top != x && top != y && top != z
    ensures !Under(parent, x, top)
  {
    assert Up(parent, x, 0) == Some(x);
    assert Up(parent, x, 1) == Some(y);
    assert Up(parent, x, 2) == Some(z);
    assert forall k :: 0 <= k <= 2 ==> Up(parent, x, k) != Some(top);
    EndsWithout(parent, x, top, 2);
  }

  /** Both moves pass the walk on the tree they were planned on. */
  lemma BothChecked(s: FS)
    requires FourDirs(s)
    ensures Checked(s, Move(s, A, Name(5, "a"), 4)) && Checked(s, Move(s, B, Name(4, "b"), 5))
  {
    FourIsTree(s);
    ShortChain(Four(), 5, 3, 1, 4);
    ShortChain(Four(), 4, 2, 1, 5);
    CheckedIs(s, Move(s, A, Name(5, "a"), 4), Four());
    CheckedIs(s, Move(s, B, Name(4, "b"), 5), Four());
  }

  lemma FirstMove(s: FS) returns (s': FS)
    requires FourDirs(s)
    ensures Next(s, Move(s, A, Name(5, "a"), 4), s') && s'.born == s.born
    ensures s'.names == (s.names - {A})[Name(5, "a") := Ver(4, s.rev + 1)]
    ensures DirPinned(s', 3, Parent(s, 3)) && DirPinned(s', 4, Parent(s, 4))
  {
    var a := Move(s, A, Name(5, "a"), 4);
    ParentPinned(s, 2);
    ParentPinned(s, 3);
    ParentPinned(s, 4);
    ParentPinned(s, 5);
    s' := Moves(s, a);
    MoveSpares(s, a, s.rev + 1, 3);
    MoveSpares(s, a, s.rev + 1, 4);
  }

  /** After the first move, 5 is above 4. */
  lemma SecondUnchecked(s: FS, s': FS, a: Action)
    requires FourDirs(s) && s'.born == s.born && s'.names == (s.names - {A})[Name(5, "a") := Ver(4, s.rev + 1)]
    requires a.Rename? && a.srcDir && a.dst.parent == 4 && a.ino == 5
    ensures !Checked(s', a)
  {
    var tree: Parents := map[2 := 1, 3 := 1, 4 := 5, 5 := 3];
    forall d | d in tree ensures Named(s'.names, s'.born, d, tree[d]) {
      var nm := if d == 2 then X else if d == 3 then Y else if d == 4 then Name(5, "a") else B;
      assert nm in s'.names && s'.names[nm].val == d && nm.parent == tree[d];
    }
    assert IsTree(tree, s'.names, s'.born);
    assert Up(tree, 4, 0) == Some(4);
    assert Up(tree, 4, 1) == Some(5);
    CheckedIs(s', a, tree);
  }

  lemma SecondMove(s: FS, s1: FS) returns (s2: FS)
    requires FourDirs(s) && s1.born == s.born && s1.names == (s.names - {A})[Name(5, "a") := Ver(4, s.rev + 1)]
    requires DirPinned(s1, 3, Parent(s, 3)) && DirPinned(s1, 4, Parent(s, 4))
    ensures Next(s1, Move(s, B, Name(4, "b"), 5), s2) && Sound(s1, Move(s, B, Name(4, "b"), 5))
  {
    s2 := Moves(s1, Move(s, B, Name(4, "b"), 5));
  }

  /** A step that is sound and checked where it is taken. */
  ghost predicate Allowed(s: FS, m: Action, s': FS) {
    Next(s, m, s') && Sound(s, m) && Checked(s, m)
  }

  lemma FirstAllowed(s: FS) returns (s1: FS)
    requires FourDirs(s)
    ensures Allowed(s, Move(s, A, Name(5, "a"), 4), s1) && s1.born == s.born
    ensures s1.names == (s.names - {A})[Name(5, "a") := Ver(4, s.rev + 1)]
    ensures DirPinned(s1, 3, Parent(s, 3)) && DirPinned(s1, 4, Parent(s, 4))
  {
    s1 := FirstMove(s);
    BothChecked(s);
  }

  /** Both moves as planned on one tree, and where they lead one after the other. */
  lemma PlanBoth(s: FS) returns (m1: Action, m2: Action, s1: FS, s2: FS)
    requires FourDirs(s)
    ensures m1.Rename? && m2.Rename? && Checked(s, m1) && Checked(s, m2)
    ensures Allowed(s, m1, s1) && Next(s1, m2, s2) && Sound(s1, m2) && !Checked(s1, m2)
  {
    m1, m2 := Move(s, A, Name(5, "a"), 4), Move(s, B, Name(4, "b"), 5);
    BothChecked(s);
    s1 := FirstAllowed(s);
    s2 := SecondMove(s, s1);
    SecondUnchecked(s, s1, m2);
  }

  lemma TreeAfter(run: seq<FS>, acts: seq<Action>, m: Action, s': FS)
    requires Quiet(run, acts) && NoRename(acts) && Allowed(Last(run), m, s')
    ensures Quiet(run + [s'], acts + [m]) && TreeOk(s')
  {
    QuietTree(run, acts);
    OneMoreQuiet(run, acts, m, s');
    StepKeepsTreeIff(Last(run), m, s');
  }

  lemma KnotAfter(run: seq<FS>, acts: seq<Action>, m: Action, s': FS)
    requires Quiet(run, acts) && TreeOk(Last(run)) && Next(Last(run), m, s') && Sound(Last(run), m) && !Checked(Last(run), m)
    ensures IsRun(run + [s'], acts + [m]) && !TreeOk(s')
  {
    OneMore(run, acts, m, s');
    EndsRight(run, acts, m, s');
    StepKeepsTreeIff(Last(run), m, s');
  }

  /** Renames of /x/a into /y/b and of /y/b into /x/a are planned on one tree, and
      both pass the walk and their own comparisons: neither touches a record the
      other pins. Committed one after the other they leave a cycle. */
  lemma ConcurrentMovesTieKnot() returns (run: seq<FS>, acts: seq<Action>, s1: FS, s2: FS, m1: Action, m2: Action)
    ensures Quiet(run, acts) && Quiet(run + [s1], acts + [m1]) && IsRun(run + [s1] + [s2], acts + [m1] + [m2])
    ensures m1.Rename? && m2.Rename? && Checked(Last(run), m1) && Checked(Last(run), m2) && Sound(s1, m2)
    ensures TreeOk(s1) && !TreeOk(s2)
  {
    run, acts := MakeFour();
    m1, m2, s1, s2 := PlanBoth(Last(run));
    TreeAfter(run, acts, m1, s1);
    KnotAfter(run + [s1], acts + [m1], m2, s2);
  }
}
