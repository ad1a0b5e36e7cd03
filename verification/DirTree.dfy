/** The directory tree behind a rename: the walk that refuses to move a
    directory beneath itself (pkg/metadata/dirent.go isDescendant). */
module DirTree {
  import opened Common
  import opened Namespace

  type Parents = map<nat, nat>

  /** Where `k` steps up from `x` lead, if the chain is that long. */
  function Up(parent: Parents, x: nat, k: nat): Option<nat> {
    if k == 0 then Some(x)
    else
      var y := Up(parent, x, k - 1);
      if y.Some? && y.value in parent then Some(parent[y.value]) else None
  }

  /** `x` is `top` or somewhere beneath it. */
  ghost predicate Under(parent: Parents, x: nat, top: nat) {
    exists k: nat :: Up(parent, x, k) == Some(top)
  }

  /** The chain from `x` ends. */
  ghost predicate Ends(parent: Parents, x: nat) {
    exists k: nat :: Up(parent, x, k) == None
  }

  ghost predicate Acyclic(parent: Parents) {
    forall x: nat :: Ends(parent, x)
  }

  lemma {:induction false} UpFrom(parent: Parents, x: nat, i: nat, k: nat)
    requires Up(parent, x, i).Some?
    ensures Up(parent, x, i + k) == Up(parent, Up(parent, x, i).value, k)
  {
    if k > 0 {
      UpFrom(parent, x, i, k - 1);
    }
  }

  lemma {:induction false} StaysEnded(parent: Parents, x: nat, i: nat, j: nat)
    requires Up(parent, x, i) == None && i <= j
    ensures Up(parent, x, j) == None
  {
    if i < j {
      StaysEnded(parent, x, i, j - 1);
    }
  }

  // --- The bounded walk ------------------------------------------------------------

  /** More places than values: two places agree. */
  lemma {:induction false} Pigeonhole(s: seq<nat>, values: set<nat>) returns (i: nat, j: nat)
    requires |s| > |values| && forall k :: 0 <= k < |s| ==> s[k] in values
    ensures i < j < |s| && s[i] == s[j]
    decreases |s|
  {
    var last := s[|s| - 1];
    if k :| 0 <= k < |s| - 1 && s[k] == last {
      i, j := k, |s| - 1;
    } else {
      var front := s[..|s| - 1];
      forall k | 0 <= k < |front| ensures front[k] in values - {last} {
        assert s[k] in values;
      }
      i, j := Pigeonhole(front, values - {last});
    }
  }

  /** A chain that meets itself goes round for ever, over places it has been. */
  lemma {:induction false} GoesRound(parent: Parents, x: nat, i: nat, j: nat, k: nat) returns (m: nat)
    requires i < j && Up(parent, x, i).Some? && Up(parent, x, i) == Up(parent, x, j)
    ensures m < j && Up(parent, x, k) == Up(parent, x, m) && Up(parent, x, k).Some?
    decreases k
  {
    if k < j {
      m := k;
      if Up(parent, x, k) == None {
        StaysEnded(parent, x, k, j);
      }
    } else {
      UpFrom(parent, x, i, k - j);
      UpFrom(parent, x, j, k - j);
      m := GoesRound(parent, x, i, j, i + (k - j));
    }
  }

  datatype Answer = Yes | No | Endless

  /** Walking up one parent at a time, for as many steps as there are parents,
      tells exactly whether `top` is above: the answer is no when the chain ends
      without it, and an error only when the chain runs in a cycle that misses
      it. */
  method IsDescendant(parent: Parents, ino: nat, top: nat) returns (answer: Answer)
    ensures answer == Yes <==> Under(parent, ino, top)
    ensures answer == No <==> !Under(parent, ino, top) && Ends(parent, ino)
    ensures answer == Endless <==> !Under(parent, ino, top) && !Ends(parent, ino)
  {
    assert Up(parent, ino, 0) == Some(ino);
    if ino == top {
      return Yes;
    }
    var x := ino;
    for step := 0 to |parent| + 1
      invariant Up(parent, ino, step) == Some(x)
      invariant forall k :: 0 <= k <= step ==> Up(parent, ino, k).Some? && Up(parent, ino, k) != Some(top)
    {
      if x !in parent {
        EndsWithout(parent, ino, top, step);
        return No;
      }
      assert Up(parent, ino, step + 1) == Some(parent[x]);
      if parent[x] == top {
        return Yes;
      }
      x := parent[x];
    }
    NeverEnds(parent, ino, top);
    return Endless;
  }

  lemma EndsWithout(parent: Parents, x: nat, top: nat, n: nat)
    requires Up(parent, x, n).Some? && Up(parent, x, n).value !in parent
    requires forall k :: 0 <= k <= n ==> Up(parent, x, k) != Some(top)
    ensures !Under(parent, x, top) && Ends(parent, x)
  {
    assert Up(parent, x, n + 1) == None;
    forall k: nat ensures Up(parent, x, k) != Some(top) {
      if k > n {
        StaysEnded(parent, x, n + 1, k);
      }
    }
  }

  lemma NeverEnds(parent: Parents, x: nat, top: nat)
    requires forall k :: 0 <= k <= |parent| + 1 ==> Up(parent, x, k).Some? && Up(parent, x, k) != Some(top)
    ensures !Under(parent, x, top) && !Ends(parent, x)
  {
    var chain := seq(|parent| + 1, k requires 0 <= k <= |parent| => Up(parent, x, k).value);
    forall k | 0 <= k < |chain| ensures chain[k] in parent.Keys {
      assert Up(parent, x, k + 1).Some?;
    }
    var i, j := Pigeonhole(chain, parent.Keys);
    forall k: nat ensures Up(parent, x, k).Some? && Up(parent, x, k) != Some(top) {
      var m := GoesRound(parent, x, i, j, k);
    }
  }

  // --- Moving a directory --------------------------------------------------------------

  /** A chain that never meets `d` does not care where `d` hangs. */
  lemma {:induction false} SameUp(parent: Parents, d: nat, p: nat, x: nat, k: nat)
    requires forall i :: 0 <= i < k ==> Up(parent, x, i) != Some(d)
    ensures Up(parent[d := p], x, k) == Up(parent, x, k)
  {
    if k > 0 {
      SameUp(parent, d, p, x, k - 1);
      assert Up(parent, x, k - 1) != Some(d);
    }
  }

  /** The first meeting of a chain with `d`. */
  lemma {:induction false} FirstMeeting(parent: Parents, x: nat, d: nat, k: nat) returns (i: nat)
    requires Up(parent, x, k) == Some(d)
    ensures i <= k && Up(parent, x, i) == Some(d) && forall j :: 0 <= j < i ==> Up(parent, x, j) != Some(d)
  {
    if j :| 0 <= j < k && Up(parent, x, j) == Some(d) {
      i := FirstMeeting(parent, x, d, j);
    } else {
      i := k;
    }
  }

  /** Hanging `d` under `p` where `d` is not above `p`: every chain still ends. */
  lemma MovedEnds(parent: Parents, d: nat, p: nat, x: nat)
    requires Ends(parent, x) && Ends(parent, p) && !Under(parent, p, d)
    ensures Ends(parent[d := p], x)
  {
    var moved := parent[d := p];
    var n: nat :| Up(parent, p, n) == None;
    SameUp(parent, d, p, p, n);
    if k: nat :| Up(parent, x, k) == Some(d) {
      var i := FirstMeeting(parent, x, d, k);
      SameUp(parent, d, p, x, i);
      assert Up(moved, x, i + 1) == Some(p);
      UpFrom(moved, x, i + 1, n);
      assert Up(moved, x, i + 1 + n) == None;
    } else {
      var m: nat :| Up(parent, x, m) == None;
      SameUp(parent, d, p, x, m);
      assert Up(moved, x, m) == None;
    }
  }

  /** Hanging `d` under something beneath `d` makes a cycle. */
  lemma MovedCycles(parent: Parents, d: nat, p: nat)
    requires Under(parent, p, d)
    ensures !Ends(parent[d := p], d)
  {
    var moved := parent[d := p];
    var n: nat :| Up(parent, p, n) == Some(d);
    var i := FirstMeeting(parent, p, d, n);
    SameUp(parent, d, p, p, i);
    assert Up(moved, d, 1) == Some(p) by {
      assert Up(moved, d, 0) == Some(d);
    }
    UpFrom(moved, d, 1, i);
    assert Up(moved, d, 0) == Some(d) && Up(moved, d, 1 + i) == Some(d);
    forall k: nat ensures Up(moved, d, k).Some? {
      var m := GoesRound(moved, d, 0, 1 + i, k);
    }
  }

  /** Moving a directory keeps the tree a tree exactly when the check passes. */
  lemma MoveKeepsAcyclicIff(parent: Parents, d: nat, p: nat)
    requires Acyclic(parent)
    ensures Acyclic(parent[d := p]) <==> !Under(parent, p, d)
  {
    if Under(parent, p, d) {
      MovedCycles(parent, d, p);
    } else {
      var moved := parent[d := p];
      forall x: nat ensures Ends(moved, x) {
        MovedEnds(parent, d, p, x);
      }
    }
  }

  lemma {:induction false} FewerUp(parent: Parents, w: nat, x: nat, k: nat)
    ensures Up(parent - {w}, x, k).Some? ==> Up(parent - {w}, x, k) == Up(parent, x, k)
  {
    if k > 0 {
      FewerUp(parent, w, x, k - 1);
    }
  }

  lemma RemovalKeepsAcyclic(parent: Parents, w: nat)
    requires Acyclic(parent)
    ensures Acyclic(parent - {w})
  {
    var rest := parent - {w};
    forall x: nat ensures Ends(rest, x) {
      assert Ends(parent, x);
      var k: nat :| Up(parent, x, k) == None;
      FewerUp(parent, w, x, k);
      assert Up(rest, x, k) == None;
    }
  }

  lemma EmptyIsAcyclic()
    ensures Acyclic(map[])
  {
    forall x: nat ensures Ends(map[], x) {
      assert Up(map[], x, 1) == None;
    }
  }

  /** A directory nobody hangs under anything yet may hang anywhere. */
  lemma Leaf(parent: Parents, d: nat, p: nat)
    requires Acyclic(parent) && d != p && d !in parent && forall x :: x in parent ==> parent[x] != d
    ensures Acyclic(parent[d := p])
  {
    forall k: nat ensures Up(parent, p, k) != Some(d) {
      if k > 0 && Up(parent, p, k - 1).Some? {
      }
    }
    MoveKeepsAcyclicIff(parent, d, p);
  }

  // --- The tree of a namespace -------------------------------------------------------------

  /** Each directory with a name, and the directory the name is in. */
  ghost predicate IsTree(parent: Parents, names: Names, born: map<nat, bool>) {
    && (forall nm :: nm in names && IsDir(born, names[nm].val) ==>
          names[nm].val in parent && parent[names[nm].val] == nm.parent)
    && (forall d :: d in parent ==> Named(names, born, d, parent[d]))
  }

  ghost predicate Named(names: Names, born: map<nat, bool>, d: nat, p: nat) {
    IsDir(born, d) && exists nm :: nm in names && names[nm].val == d && nm.parent == p
  }

  /** The tree of the namespace has no cycle. */
  ghost predicate TreeOk(s: FS) {
    exists parent :: IsTree(parent, s.names, s.born) && Acyclic(parent)
  }

  /** A directory is renamed only if the walk, over the tree as it is, does not
      find it above the destination. */
  ghost predicate Checked(s: FS, a: Action) {
    a.Rename? && a.srcDir ==> forall parent :: IsTree(parent, s.names, s.born) ==> !Under(parent, a.dst.parent, a.ino)
  }

  /** Entries of files come and go without touching the tree. */
  lemma FileNames(parent: Parents, names: Names, born: map<nat, bool>, names': Names, born': map<nat, bool>)
    requires IsTree(parent, names, born) && Extends(born, born')
    requires forall nm :: nm in names && IsDir(born, names[nm].val) ==> nm in names' && names'[nm].val == names[nm].val
    requires forall nm :: nm in names' && IsDir(born', names'[nm].val) ==> nm in names && names'[nm].val == names[nm].val
                                                                           && IsDir(born, names[nm].val)
    ensures IsTree(parent, names', born')
  {
    forall d | d in parent ensures Named(names', born', d, parent[d]) {
      assert Named(names, born, d, parent[d]);
      var nm :| nm in names && names[nm].val == d && nm.parent == parent[d];
      assert nm in names' && names'[nm].val == d;
    }
  }

  /** A new name for a directory that has none. */
  lemma AddName(parent: Parents, names: Names, born: map<nat, bool>, nm: Name, v: Ver<nat>)
    requires IsTree(parent, names, born) && nm !in names && v.val !in parent && IsDir(born, v.val)
    ensures IsTree(parent[v.val := nm.parent], names[nm := v], born)
  {
    var grown, names' := parent[v.val := nm.parent], names[nm := v];
    forall d | d in grown ensures Named(names', born, d, grown[d]) {
      if d == v.val {
        assert nm in names' && names'[nm].val == d;
      } else {
        assert Named(names, born, d, parent[d]);
        var at :| at in names && names[at].val == d && at.parent == parent[d];
        assert at in names' && names'[at].val == d;
      }
    }
  }

  /** Taking out the one name of a directory. */
  lemma DropName(parent: Parents, names: Names, born: map<nat, bool>, nm: Name)
    requires IsTree(parent, names, born) && OnlyName(names, nm) && IsDir(born, names[nm].val)
    ensures IsTree(parent - {names[nm].val}, names - {nm}, born)
  {
    var rest, names' := parent - {names[nm].val}, names - {nm};
    forall d | d in rest ensures Named(names', born, d, rest[d]) {
      assert Named(names, born, d, parent[d]);
      var at :| at in names && names[at].val == d && at.parent == parent[d];
      assert at in names' && names'[at].val == d;
    }
  }

  /** Names are of created inodes, in created directories. */
  ghost predicate Grounded(names: Names, born: map<nat, bool>) {
    forall nm :: nm in names ==> names[nm].val in born && IsDir(born, nm.parent)
  }

  lemma InvGrounded(s: FS)
    requires Inv(s)
    ensures Grounded(s.names, s.born)
  {
  }

  lemma NewNumberIsNowhere(parent: Parents, names: Names, born: map<nat, bool>, ino: nat)
    requires Grounded(names, born) && IsTree(parent, names, born) && ino !in born
    ensures ino !in parent && forall x :: x in parent ==> parent[x] != ino
  {
    forall x | x in parent ensures x != ino && parent[x] != ino {
      assert Named(names, born, x, parent[x]);
    }
  }

  lemma BornLater(parent: Parents, names: Names, born: map<nat, bool>, ino: nat, dir: bool)
    requires Grounded(names, born) && IsTree(parent, names, born) && ino !in born
    ensures IsTree(parent, names, born[ino := dir])
  {
    ExtendsBy(born, ino, dir);
    FileNames(parent, names, born, names, born[ino := dir]);
  }

  lemma GrowTree(parent: Parents, names: Names, born: map<nat, bool>, nm: Name, v: Ver<nat>)
    requires Grounded(names, born) && IsTree(parent, names, born) && Acyclic(parent)
    requires nm !in names && v.val !in born && IsDir(born, nm.parent)
    ensures IsTree(parent[v.val := nm.parent], names[nm := v], born[v.val := true]) && Acyclic(parent[v.val := nm.parent])
  {
    NewNumberIsNowhere(parent, names, born, v.val);
    Leaf(parent, v.val, nm.parent);
    BornLater(parent, names, born, v.val, true);
    AddName(parent, names, born[v.val := true], nm, v);
  }

  lemma MkdirTree(s: FS, nm: Name, ino: nat, pv: Option<Ver<Inode>>, s': FS, parent: Parents)
    requires Grounded(s.names, s.born) && MkdirStep(s, nm, ino, pv, s')
    requires IsTree(parent, s.names, s.born) && Acyclic(parent)
    ensures TreeOk(s')
  {
    GrowTree(parent, s.names, s.born, nm, Ver(ino, s.rev + 1));
  }

  ghost predicate OnlyName(names: Names, nm: Name) {
    nm in names && forall at :: at in names && names[at].val == names[nm].val ==> at == nm
  }

  /** A directory's name is its only one. */
  lemma NamedOnce(s: FS, nm: Name)
    requires Inv(s) && nm in s.names && IsDir(s.born, s.names[nm].val)
    ensures OnlyName(s.names, nm)
  {
    var d := s.names[nm].val;
    assert LinksOk(s.names, s.born, d, s.inodes[d].val);
    forall at | at in s.names && s.names[at].val == d ensures at == nm {
      if at != nm {
        TwoNames(s.names, nm, at, d);
      }
    }
  }

  lemma DropDirTree(s: FS, nm: Name, s': FS, parent: Parents)
    requires OnlyName(s.names, nm) && IsDir(s.born, s.names[nm].val) && s'.names == s.names - {nm} && s'.born == s.born
    requires IsTree(parent, s.names, s.born) && Acyclic(parent)
    ensures TreeOk(s')
  {
    DropName(parent, s.names, s.born, nm);
    RemovalKeepsAcyclic(parent, s.names[nm].val);
  }

  lemma FewerUnder(parent: Parents, w: nat, x: nat, top: nat)
    requires !Under(parent, x, top)
    ensures !Under(parent - {w}, x, top)
  {
    forall k: nat ensures Up(parent - {w}, x, k) != Some(top) {
      FewerUp(parent, w, x, k);
      assert Up(parent, x, k) != Some(top);
    }
  }

  /** Taking a directory down keeps the tree, and what is not beneath it stays
      not beneath it. */
  lemma TakeDown(parent: Parents, names: Names, born: map<nat, bool>, nm: Name, p: nat, top: nat)
    requires IsTree(parent, names, born) && Acyclic(parent) && OnlyName(names, nm) && IsDir(born, names[nm].val)
    requires !Under(parent, p, top)
    ensures IsTree(parent - {names[nm].val}, names - {nm}, born) && Acyclic(parent - {names[nm].val})
    ensures !Under(parent - {names[nm].val}, p, top)
  {
    DropName(parent, names, born, nm);
    RemovalKeepsAcyclic(parent, names[nm].val);
    FewerUnder(parent, names[nm].val, p, top);
  }

  lemma Hang(tree: Parents, names: Names, born: map<nat, bool>, nm: Name, v: Ver<nat>, s': FS)
    requires IsTree(tree, names, born) && Acyclic(tree) && nm !in names && v.val !in tree && IsDir(born, v.val)
    requires !Under(tree, nm.parent, v.val) && s'.born == born && s'.names == names[nm := v]
    ensures TreeOk(s')
  {
    AddName(tree, names, born, nm, v);
    MoveKeepsAcyclicIff(tree, v.val, nm.parent);
  }

  /** Moving a directory's one name, over an empty directory or over nothing. */
  lemma MoveTree(parent: Parents, names: Names, born: map<nat, bool>, src: Name, dst: Name, v: Ver<nat>, s': FS)
    requires IsTree(parent, names, born) && Acyclic(parent) && src != dst
    requires OnlyName(names, src) && names[src].val == v.val && IsDir(born, v.val) && !Under(parent, dst.parent, v.val)
    requires dst in names ==> OnlyName(names, dst) && IsDir(born, names[dst].val)
    requires s'.born == born && s'.names == (names - {src})[dst := v]
    ensures TreeOk(s')
  {
    var rest, tree := names - {src}, parent - {v.val};
    TakeDown(parent, names, born, src, dst.parent, v.val);
    if dst in names {
      TakeDown(tree, rest, born, dst, dst.parent, v.val);
      assert (rest - {dst})[dst := v] == rest[dst := v];
      Hang(tree - {names[dst].val}, rest - {dst}, born, dst, v, s');
    } else {
      Hang(tree, rest, born, dst, v, s');
    }
  }

  lemma VictimIsDir(s: FS, a: Action)
    requires Inv(s) && RenameFits(s.names, s.inodes, s.born, a) && a.target.Some? && a.srcDir
    ensures IsDir(s.born, s.names[a.dst].val)
  {
    assert LinksOk(s.names, s.born, s.names[a.dst].val, s.inodes[s.names[a.dst].val].val);
  }

  lemma MoveFacts(s: FS, a: Action, s': FS)
    requires Inv(s) && a.Rename? && RenameStep(s, a, s') && s.names[a.src].val == a.ino && IsDir(s.born, a.ino)
    ensures OnlyName(s.names, a.src) && (a.dst in s.names ==> OnlyName(s.names, a.dst) && IsDir(s.born, s.names[a.dst].val))
  {
    RenameReads(s, a, s');
    NamedOnce(s, a.src);
    if a.target.Some? {
      VictimIsDir(s, a);
      NamedOnce(s, a.dst);
    }
  }

  lemma MoveDirTree(s: FS, a: Action, s': FS, parent: Parents)
    requires a.Rename? && RenameStep(s, a, s') && s.names[a.src].val == a.ino && IsDir(s.born, a.ino)
    requires OnlyName(s.names, a.src) && (a.dst in s.names ==> OnlyName(s.names, a.dst) && IsDir(s.born, s.names[a.dst].val))
    requires IsTree(parent, s.names, s.born) && Acyclic(parent) && !Under(parent, a.dst.parent, a.ino)
    ensures TreeOk(s')
  {
    MoveTree(parent, s.names, s.born, a.src, a.dst, Ver(a.ino, s.rev + 1), s');
  }

  /** A file's name comes. */
  lemma NewNameTree(parent: Parents, names: Names, born: map<nat, bool>, nm: Name, v: Ver<nat>)
    requires IsTree(parent, names, born) && nm !in names && !IsDir(born, v.val)
    ensures IsTree(parent, names[nm := v], born)
  {
    ExtendsBy(born, 0, false);
    FileNames(parent, names, born, names[nm := v], born);
  }

  /** A file's name goes. */
  lemma OldNameTree(parent: Parents, names: Names, born: map<nat, bool>, nm: Name)
    requires IsTree(parent, names, born) && nm in names && !IsDir(born, names[nm].val)
    ensures IsTree(parent, names - {nm}, born)
  {
    ExtendsBy(born, 0, false);
    FileNames(parent, names, born, names - {nm}, born);
  }

  lemma CreateTree(s: FS, nm: Name, ino: nat, s': FS, parent: Parents)
    requires Grounded(s.names, s.born) && CreateStep(s, nm, ino, s') && IsTree(parent, s.names, s.born)
    ensures IsTree(parent, s'.names, s'.born)
  {
    BornLater(parent, s.names, s.born, ino, false);
    NewNameTree(parent, s.names, s.born[ino := false], nm, Ver(ino, s.rev + 1));
  }

  /** The type a plan read is the inode's. */
  lemma PinnedKind(s: FS, ino: nat, v: Ver<Inode>)
    requires Inv(s) && InodePinned(s, ino, v)
    ensures s.inodes[ino] == v && IsDir(s.born, ino) == v.val.dir
  {
    Pins(s.seenInodes, s.inodes, s.rev, ino, v);
    assert LinksOk(s.names, s.born, ino, v.val);
  }

  lemma LinkTree(s: FS, ino: nat, nm: Name, v: Ver<Inode>, s': FS, parent: Parents)
    requires LinkStep(s, ino, nm, v, s') && !IsDir(s.born, ino) && IsTree(parent, s.names, s.born)
    ensures IsTree(parent, s'.names, s'.born)
  {
    NewNameTree(parent, s.names, s.born, nm, Ver(ino, s.rev + 1));
  }

  lemma UnlinkTree(s: FS, nm: Name, dv: Ver<nat>, v: Ver<Inode>, open: bool, s': FS, parent: Parents)
    requires Inv(s) && UnlinkStep(s, nm, dv, v, open, s') && !v.val.dir && IsTree(parent, s.names, s.born)
    ensures IsTree(parent, s'.names, s'.born)
  {
    Pins(s.seenNames, s.names, s.rev, nm, dv);
    Pins(s.seenInodes, s.inodes, s.rev, dv.val, v);
    assert LinksOk(s.names, s.born, dv.val, v.val);
    OldNameTree(parent, s.names, s.born, nm);
  }

  lemma MoveFileTree(s: FS, a: Action, s': FS, parent: Parents)
    requires Inv(s) && a.Rename? && RenameStep(s, a, s') && s.names[a.src].val == a.ino && !IsDir(s.born, a.ino)
    requires IsTree(parent, s.names, s.born)
    ensures IsTree(parent, s'.names, s'.born)
  {
    RenameReads(s, a, s');
    if a.target.Some? {
      assert LinksOk(s.names, s.born, s.names[a.dst].val, s.inodes[s.names[a.dst].val].val);
    }
    FileNames(parent, s.names, s.born, s'.names, s'.born);
  }

  lemma DropTree(s: FS, a: Action, s': FS, parent: Parents)
    requires Inv(s) && Next(s, a, s') && (a.Rmdir? || (a.Unlink? && a.v.val.dir))
    requires IsTree(parent, s.names, s.born) && Acyclic(parent)
    ensures TreeOk(s')
  {
    Pins(s.seenNames, s.names, s.rev, a.nm, a.dv);
    Pins(s.seenInodes, s.inodes, s.rev, a.dv.val, a.v);
    assert LinksOk(s.names, s.born, a.dv.val, a.v.val);
    NamedOnce(s, a.nm);
    DropDirTree(s, a.nm, s', parent);
  }

  lemma TreeIsOne(p: Parents, q: Parents, names: Names, born: map<nat, bool>)
    requires IsTree(p, names, born) && IsTree(q, names, born)
    ensures p == q
  {
    forall d ensures d in p <==> d in q {
      assert d in p ==> Named(names, born, d, p[d]);
      assert d in q ==> Named(names, born, d, q[d]);
    }
    forall d | d in p ensures p[d] == q[d] {
      assert Named(names, born, d, p[d]);
    }
  }

  /** Two maps that agree wherever a chain passes carry it alike. */
  ghost predicate Agree(p: Parents, q: Parents, x: nat, k: nat) {
    forall i, y :: 0 <= i < k && Up(p, x, i) == Some(y) ==> y in p && y in q && p[y] == q[y]
  }

  lemma {:induction false} SameWay(p: Parents, q: Parents, x: nat, k: nat)
    requires Agree(p, q, x, k)
    ensures Up(q, x, k) == Up(p, x, k)
  {
    if k > 0 {
      SameWay(p, q, x, k - 1);
    }
  }

  /** A chain from a directory to one above it passes only directories that have
      entries, so no empty one but perhaps the first. */
  lemma {:induction false} PassesNoEmpty(parent: Parents, names: Names, born: map<nat, bool>, x: nat, k: nat, empty: nat)
    requires IsTree(parent, names, born) && DirEmpty(names, empty) && x != empty
    ensures Up(parent, x, k) != Some(empty)
  {
    if k > 0 {
      PassesNoEmpty(parent, names, born, x, k - 1, empty);
      var y := Up(parent, x, k - 1);
      assert y.Some? && y.value in parent ==> Named(names, born, y.value, parent[y.value]);
    }
  }

  lemma LoopCycles(tree: Parents, d: nat, p: nat, m: nat)
    requires d in tree && tree[d] == p && Up(tree, p, m) == Some(d)
    ensures !Acyclic(tree)
  {
    assert Up(tree, d, 0) == Some(d);
    assert Up(tree, d, 1) == Some(p);
    UpFrom(tree, d, 1, m);
    forall k: nat ensures Up(tree, d, k).Some? {
      var j := GoesRound(tree, d, 0, 1 + m, k);
    }
    assert !Ends(tree, d);
  }

  lemma SameChain(parent: Parents, tree: Parents, names: Names, born: map<nat, bool>, src: Name, dst: Name, v: Ver<nat>, m: nat)
    requires IsTree(parent, names, born) && IsTree(tree, (names - {src})[dst := v], born)
    requires src in names && src != dst && names[src].val == v.val && OnlyName(names, src)
    requires dst in names ==> DirEmpty(names, names[dst].val)
    requires Up(parent, dst.parent, m).Some? && forall i :: 0 <= i < m ==> Up(parent, dst.parent, i) != Some(v.val)
    ensures Agree(parent, tree, dst.parent, m)
  {
    forall i, y | 0 <= i < m && Up(parent, dst.parent, i) == Some(y) ensures y in parent && y in tree && parent[y] == tree[y] {
      WayStation(parent, tree, names, born, src, dst, v, i, y, m);
    }
  }

  lemma HangsThere(tree: Parents, names: Names, born: map<nat, bool>, nm: Name)
    requires IsTree(tree, names, born) && nm in names && IsDir(born, names[nm].val)
    ensures names[nm].val in tree && tree[names[nm].val] == nm.parent
  {
  }

  /** Moving the name of a directory beneath itself leaves a cycle, whatever
      empty directory it replaces. */
  lemma MovedBeneath(parent: Parents, tree: Parents, names: Names, born: map<nat, bool>, src: Name, dst: Name, v: Ver<nat>)
    requires IsTree(parent, names, born) && IsTree(tree, (names - {src})[dst := v], born)
    requires src in names && src != dst && names[src].val == v.val && IsDir(born, v.val) && OnlyName(names, src)
    requires dst in names ==> DirEmpty(names, names[dst].val)
    requires Under(parent, dst.parent, v.val)
    ensures !Acyclic(tree)
  {
    var n: nat :| Up(parent, dst.parent, n) == Some(v.val);
    var m := FirstMeeting(parent, dst.parent, v.val, n);
    SameChain(parent, tree, names, born, src, dst, v, m);
    SameWay(parent, tree, dst.parent, m);
    HangsThere(tree, (names - {src})[dst := v], born, dst);
    LoopCycles(tree, v.val, dst.parent, m);
  }

  lemma WayStation(parent: Parents, tree: Parents, names: Names, born: map<nat, bool>, src: Name, dst: Name, v: Ver<nat>, i: nat, y: nat, m: nat)
    requires IsTree(parent, names, born) && IsTree(tree, (names - {src})[dst := v], born)
    requires src in names && src != dst && names[src].val == v.val && OnlyName(names, src)
    requires dst in names ==> DirEmpty(names, names[dst].val)
    requires i < m && Up(parent, dst.parent, i) == Some(y) && Up(parent, dst.parent, m).Some? && y != v.val
    ensures y in parent && y in tree && parent[y] == tree[y]
  {
    if y !in parent {
      assert Up(parent, dst.parent, i + 1) == None;
      StaysEnded(parent, dst.parent, i + 1, m);
    }
    assert Named(names, born, y, parent[y]);
    var at :| at in names && names[at].val == y && at.parent == parent[y];
    if dst in names {
      PassesNoEmpty(parent, names, born, dst.parent, i, names[dst].val);
    }
    var names' := (names - {src})[dst := v];
    assert at in names' && names'[at].val == y;
  }

  lemma MoveKnots(parent: Parents, names: Names, born: map<nat, bool>, src: Name, dst: Name, v: Ver<nat>, s': FS)
    requires IsTree(parent, names, born) && src in names && src != dst && Under(parent, dst.parent, v.val)
    requires names[src].val == v.val && IsDir(born, v.val) && OnlyName(names, src)
    requires dst in names ==> DirEmpty(names, names[dst].val)
    requires s'.born == born && s'.names == (names - {src})[dst := v]
    ensures !TreeOk(s')
  {
    forall tree | IsTree(tree, s'.names, s'.born) ensures !Acyclic(tree) {
      MovedBeneath(parent, tree, names, born, src, dst, v);
    }
  }

  lemma MoveKnotsAt(s: FS, a: Action, s': FS, parent: Parents)
    requires a.Rename? && RenameStep(s, a, s') && s.names[a.src].val == a.ino && IsDir(s.born, a.ino) && OnlyName(s.names, a.src)
    requires a.dst in s.names ==> DirEmpty(s.names, s.names[a.dst].val)
    requires IsTree(parent, s.names, s.born) && Under(parent, a.dst.parent, a.ino)
    ensures !TreeOk(s')
  {
    MoveKnots(parent, s.names, s.born, a.src, a.dst, Ver(a.ino, s.rev + 1), s');
  }

  lemma CheckedIs(s: FS, a: Action, parent: Parents)
    requires a.Rename? && a.srcDir && IsTree(parent, s.names, s.born)
    ensures Checked(s, a) <==> !Under(parent, a.dst.parent, a.ino)
  {
    forall other | IsTree(other, s.names, s.born) ensures other == parent {
      TreeIsOne(parent, other, s.names, s.born);
    }
  }

  lemma VictimIsEmpty(s: FS, a: Action, s': FS)
    requires Inv(s) && a.Rename? && RenameStep(s, a, s') && a.srcDir
    ensures a.dst in s.names ==> DirEmpty(s.names, s.names[a.dst].val)
  {
    RenameReads(s, a, s');
  }

  lemma MovesADir(s: FS, a: Action, s': FS)
    requires a.Rename? && RenameStep(s, a, s') && IsDir(s.born, a.ino)
    requires Inv(s) && s.names[a.src].val == a.ino
    ensures a.srcDir
  {
  }

  lemma MoveKeepsTreeIff(s: FS, a: Action, s': FS)
    requires Inv(s) && TreeOk(s) && a.Rename? && RenameStep(s, a, s') && s.names[a.src].val == a.ino && IsDir(s.born, a.ino)
    ensures TreeOk(s') <==> Checked(s, a)
  {
    var parent :| IsTree(parent, s.names, s.born) && Acyclic(parent);
    MovesADir(s, a, s');
    MoveFacts(s, a, s');
    VictimIsEmpty(s, a, s');
    CheckedIs(s, a, parent);
    if Under(parent, a.dst.parent, a.ino) {
      MoveKnotsAt(s, a, s', parent);
    } else {
      MoveDirTree(s, a, s', parent);
    }
  }

  lemma OtherStepsKeepTree(s: FS, a: Action, s': FS)
    requires Inv(s) && TreeOk(s) && Next(s, a, s') && Sound(s, a) && !(a.Rename? && IsDir(s.born, a.ino))
    ensures TreeOk(s')
  {
    var parent :| IsTree(parent, s.names, s.born) && Acyclic(parent);
    InvGrounded(s);
    if a.Create? {
      CreateTree(s, a.nm, a.ino, s', parent);
    } else if a.Link? {
      PinnedKind(s, a.ino, a.v);
      LinkTree(s, a.ino, a.nm, a.v, s', parent);
    } else if a.Unlink? && !a.v.val.dir {
      UnlinkTree(s, a.nm, a.dv, a.v, a.open, s', parent);
    } else if a.Mkdir? {
      MkdirTree(s, a.nm, a.ino, a.pv, s', parent);
    } else if a.Rmdir? || (a.Unlink? && a.v.val.dir) {
      DropTree(s, a, s', parent);
    } else if a.Rename? {
      MoveFileTree(s, a, s', parent);
    }
  }

  /** A sound action keeps the tree free of cycles exactly when it is not a
      rename of a directory beneath itself, as the tree is when it commits. */
  lemma StepKeepsTreeIff(s: FS, a: Action, s': FS)
    requires Inv(s) && TreeOk(s) && Next(s, a, s') && Sound(s, a)
    ensures TreeOk(s') <==> Checked(s, a)
  {
    if a.Rename? && IsDir(s.born, a.ino) {
      MoveKeepsTreeIff(s, a, s');
    } else {
      OtherStepsKeepTree(s, a, s');
      assert a.Rename? ==> !a.srcDir;
    }
  }

  // --- Everything hangs under the root ---------------------------------------------------------

  /** Every entry is in a directory that is there. */
  ghost predicate Housed(names: Names, inodes: Inodes) {
    ROOT in inodes && forall nm :: nm in names ==> nm.parent in inodes
  }

  /** Where the action puts a name, there is still a directory. */
  predicate ParentThere(s: FS, a: Action) {
    match a
    case Create(nm, _) => nm.parent in s.inodes
    case Mkdir(nm, _, _) => nm.parent in s.inodes
    case Link(_, nm, _) => nm.parent in s.inodes
    case Rename(_, dst, _, _, _, _, _) => dst.parent in s.inodes
    case _ => true
  }

  /** Every directory of `dirs` but the root has its parent among them. */
  ghost predicate Climbs(parent: Parents, dirs: set<nat>) {
    forall x :: x in dirs && x != ROOT ==> x in parent && parent[x] in dirs
  }

  /** Where climbing never leaves the directories there are, it ends at the root. */
  lemma {:induction false} LeadsToRoot(parent: Parents, dirs: set<nat>, x: nat, n: nat) returns (k: nat)
    requires Climbs(parent, dirs) && x in dirs && Up(parent, x, n) == None
    ensures Up(parent, x, k) == Some(ROOT)
    decreases n
  {
    if x == ROOT {
      k := 0;
    } else {
      assert Up(parent, x, 0) == Some(x);
      assert Up(parent, x, 1) == Some(parent[x]);
      UpFrom(parent, x, 1, n - 1);
      var j := LeadsToRoot(parent, dirs, parent[x], n - 1);
      UpFrom(parent, x, 1, j);
      k := 1 + j;
    }
  }

  function Dirs(s: FS): set<nat> {
    set x | x in s.inodes && IsDir(s.born, x)
  }

  lemma HousedClimbs(s: FS, parent: Parents)
    requires Inv(s) && Housed(s.names, s.inodes) && IsTree(parent, s.names, s.born)
    ensures Climbs(parent, Dirs(s))
  {
    forall x | x in Dirs(s) && x != ROOT ensures x in parent && parent[x] in Dirs(s) {
      assert LinksOk(s.names, s.born, x, s.inodes[x].val);
      var nm :| nm in NamesOf(s.names, x);
    }
  }

  /** Every directory that exists, and every directory an entry is in, is under
      the root. */
  ghost predicate Attached(s: FS) {
    ROOT in s.inodes && exists parent :: IsTree(parent, s.names, s.born) && AllUnder(s, parent)
  }

  ghost predicate AllUnder(s: FS, parent: Parents) {
    && (forall x :: x in Dirs(s) ==> Under(parent, x, ROOT))
    && (forall nm :: nm in s.names ==> Under(parent, nm.parent, ROOT))
  }

  lemma HousedIsAttached(s: FS)
    requires Inv(s) && TreeOk(s) && Housed(s.names, s.inodes)
    ensures Attached(s)
  {
    var parent :| IsTree(parent, s.names, s.born) && Acyclic(parent);
    HousedClimbs(s, parent);
    forall x | x in Dirs(s) ensures Under(parent, x, ROOT) {
      assert Ends(parent, x);
      var n: nat :| Up(parent, x, n) == None;
      var k := LeadsToRoot(parent, Dirs(s), x, n);
    }
    forall nm | nm in s.names ensures nm.parent in Dirs(s) {
    }
    assert AllUnder(s, parent);
  }

  lemma AttachedIsHoused(s: FS)
    requires Inv(s) && Attached(s)
    ensures Housed(s.names, s.inodes)
  {
    var parent :| IsTree(parent, s.names, s.born) && AllUnder(s, parent);
    forall nm | nm in s.names ensures nm.parent in s.inodes {
      var k: nat :| Up(parent, nm.parent, k) == Some(ROOT);
      if nm.parent != ROOT {
        NotThereYet(parent, nm.parent, k);
        assert Named(s.names, s.born, nm.parent, parent[nm.parent]);
      }
    }
  }

  lemma NotThereYet(parent: Parents, x: nat, k: nat)
    requires Up(parent, x, k) == Some(ROOT) && x != ROOT
    ensures x in parent
  {
    assert Up(parent, x, 0) == Some(x);
    if x !in parent {
      assert Up(parent, x, 1) == None;
      StaysEnded(parent, x, 1, k);
    }
  }

  // What each action does to it.

  lemma NewNameHoused(names: Names, inodes: Inodes, nm: Name, v: Ver<nat>, inodes': Inodes)
    requires Housed(names, inodes) && inodes.Keys <= inodes'.Keys && (nm.parent in inodes' ==> nm.parent in inodes)
    ensures Housed(names[nm := v], inodes') <==> nm.parent in inodes
  {
    var names' := names[nm := v];
    assert nm in names';
  }

  lemma NoSelfParent(s: FS, nm: Name)
    requires TreeOk(s) && nm in s.names && IsDir(s.born, s.names[nm].val)
    ensures nm.parent != s.names[nm].val
  {
    var parent :| IsTree(parent, s.names, s.born) && Acyclic(parent);
    var d := s.names[nm].val;
    if nm.parent == d {
      assert Up(parent, d, 0) == Some(d);
      LoopCycles(parent, d, d, 0);
    }
  }

  lemma UnlinksAFile(s: FS, nm: Name, dv: Ver<nat>, v: Ver<Inode>)
    requires Inv(s) && TreeOk(s) && Housed(s.names, s.inodes) && NamePinned(s, nm, dv) && InodePinned(s, dv.val, v)
    requires !TakesSubdir(s, nm, dv, v)
    ensures !IsDir(s.born, dv.val)
  {
    Pins(s.seenNames, s.names, s.rev, nm, dv);
    PinnedKind(s, dv.val, v);
    if v.val.dir {
      NoSelfParent(s, nm);
    }
  }

  /** A file's record comes and goes without unhousing anything. */
  lemma FileGoesHoused(names: Names, born: map<nat, bool>, inodes: Inodes, names': Names, inodes': Inodes, ino: nat)
    requires Housed(names, inodes) && Grounded(names, born) && IsDir(born, ROOT) && !IsDir(born, ino)
    requires (forall nm :: nm in names' ==> nm in names) && (forall x :: x in inodes && x != ino ==> x in inodes')
    ensures Housed(names', inodes')
  {
  }

  lemma UnlinkHoused(s: FS, nm: Name, dv: Ver<nat>, v: Ver<Inode>, open: bool, s': FS)
    requires Grounded(s.names, s.born) && Housed(s.names, s.inodes) && IsDir(s.born, ROOT) && !IsDir(s.born, dv.val)
    requires UnlinkStep(s, nm, dv, v, open, s')
    ensures Housed(s'.names, s'.inodes)
  {
    FileGoesHoused(s.names, s.born, s.inodes, s'.names, s'.inodes, dv.val);
  }

  lemma OrphanHoused(s: FS, ino: nat, v: Ver<Inode>, s': FS)
    requires Inv(s) && Housed(s.names, s.inodes) && IsDir(s.born, ROOT) && DropOrphanStep(s, ino, v, s')
    ensures Housed(s'.names, s'.inodes)
  {
    InvGrounded(s);
    FileGoesHoused(s.names, s.born, s.inodes, s'.names, s'.inodes, ino);
  }

  lemma RootHasNoName(s: FS, nm: Name)
    requires Inv(s) && ROOT in s.inodes && IsDir(s.born, ROOT) && nm in s.names
    ensures s.names[nm].val != ROOT
  {
    assert LinksOk(s.names, s.born, ROOT, s.inodes[ROOT].val);
    assert s.names[nm].val == ROOT ==> nm in NamesOf(s.names, ROOT);
  }

  lemma EmptyGoesHoused(names: Names, inodes: Inodes, nm: Name, pv: Option<Ver<Inode>>, d: nat, r: nat)
    requires Housed(names, inodes) && DirEmpty(names, d) && d != ROOT && d != nm.parent
    ensures Housed(names - {nm}, Adjusted(inodes - {d}, nm.parent, pv, -1, r))
  {
  }

  lemma RmdirHoused(s: FS, nm: Name, dv: Ver<nat>, v: Ver<Inode>, pv: Option<Ver<Inode>>, s': FS)
    requires Inv(s) && Housed(s.names, s.inodes) && IsDir(s.born, ROOT) && RmdirStep(s, nm, dv, v, pv, s')
    ensures Housed(s'.names, s'.inodes)
  {
    Pins(s.seenNames, s.names, s.rev, nm, dv);
    RootHasNoName(s, nm);
    EmptyGoesHoused(s.names, s.inodes, nm, pv, dv.val, s.rev + 1);
  }

  /** A rename keeps every record but perhaps the victim's, and makes none. */
  lemma RenamedKeys(inodes: Inodes, a: Action, r: nat, x: nat)
    requires a.Rename? && Exact(inodes, a.src.parent, a.from) && Exact(inodes, a.dst.parent, a.into)
    ensures x in inodes && (a.target.Some? ==> x != a.target.value.0.val) ==> x in AfterRename(inodes, a, r)
    ensures x in AfterRename(inodes, a, r) && (a.target.Some? ==> a.target.value.0.val in inodes) ==> x in inodes
  {
  }

  /** Nothing is kept in the victim: it is a file, or empty. */
  lemma VictimIsNobodysHome(names: Names, inodes: Inodes, born: map<nat, bool>, a: Action, nm: Name)
    requires RenameFits(names, inodes, born, a) && a.target.Some? && IsDir(born, nm.parent)
    requires IsDir(born, names[a.dst].val) ==> a.srcDir
    requires nm in names || nm == a.dst
    ensures nm.parent != names[a.dst].val
  {
  }

  lemma RenamedHoused(names: Names, inodes: Inodes, born: map<nat, bool>, a: Action, r: nat)
    requires RenameFits(names, inodes, born, a) && Grounded(names, born) && Housed(names, inodes)
    requires a.target.Some? ==> names[a.dst].val != ROOT && (IsDir(born, names[a.dst].val) ==> a.srcDir)
    ensures Housed((names - {a.src})[a.dst := Ver(a.ino, r)], AfterRename(inodes, a, r)) <==> a.dst.parent in inodes
  {
    var names' := (names - {a.src})[a.dst := Ver(a.ino, r)];
    RenamedKeys(inodes, a, r, ROOT);
    forall nm | nm in names' ensures nm.parent in AfterRename(inodes, a, r) <==> nm.parent in inodes {
      RenamedKeys(inodes, a, r, nm.parent);
      if a.target.Some? {
        VictimIsNobodysHome(names, inodes, born, a, nm);
      }
    }
    assert a.dst in names';
  }

  lemma VictimKind(s: FS, a: Action)
    requires Inv(s) && RenameFits(s.names, s.inodes, s.born, a) && a.target.Some? && ROOT in s.inodes && IsDir(s.born, ROOT)
    ensures s.names[a.dst].val != ROOT && (IsDir(s.born, s.names[a.dst].val) ==> a.srcDir)
  {
    RootHasNoName(s, a.dst);
    assert LinksOk(s.names, s.born, s.names[a.dst].val, s.inodes[s.names[a.dst].val].val);
  }

  lemma RenameHoused(s: FS, a: Action, s': FS)
    requires Inv(s) && Housed(s.names, s.inodes) && IsDir(s.born, ROOT) && a.Rename? && RenameStep(s, a, s')
    ensures Housed(s'.names, s'.inodes) <==> a.dst.parent in s.inodes
  {
    RenameReads(s, a, s');
    InvGrounded(s);
    if a.target.Some? {
      VictimKind(s, a);
    }
    RenamedHoused(s.names, s.inodes, s.born, a, s.rev + 1);
  }

  lemma AddedHoused(s: FS, a: Action, s': FS)
    requires Housed(s.names, s.inodes) && Next(s, a, s') && (a.Create? || a.Mkdir? || a.Link?)
    ensures Housed(s'.names, s'.inodes) <==> a.nm.parent in s.inodes
  {
    NewNameHoused(s.names, s.inodes, a.nm, Ver(a.ino, s.rev + 1), s'.inodes);
  }

  lemma TakenHoused(s: FS, a: Action, s': FS)
    requires Inv(s) && TreeOk(s) && Housed(s.names, s.inodes) && IsDir(s.born, ROOT) && Next(s, a, s') && Sound(s, a)
    requires a.Unlink? || a.Rmdir? || a.DropOrphan?
    ensures Housed(s'.names, s'.inodes)
  {
    if a.Unlink? {
      InvGrounded(s);
      UnlinksAFile(s, a.nm, a.dv, a.v);
      UnlinkHoused(s, a.nm, a.dv, a.v, a.open, s');
    } else if a.Rmdir? {
      RmdirHoused(s, a.nm, a.dv, a.v, a.pv, s');
    } else {
      OrphanHoused(s, a.ino, a.v, s');
    }
  }

  /** A sound action keeps everything housed exactly when the directory it puts a
      name in is still there when it commits. */
  lemma HousedKeptIff(s: FS, a: Action, s': FS)
    requires Inv(s) && TreeOk(s) && Housed(s.names, s.inodes) && IsDir(s.born, ROOT) && Next(s, a, s') && Sound(s, a)
    ensures Housed(s'.names, s'.inodes) <==> ParentThere(s, a)
  {
    if a.Create? || a.Mkdir? || a.Link? {
      AddedHoused(s, a, s');
    } else if a.Rename? {
      RenameHoused(s, a, s');
    } else if !a.Touch? {
      TakenHoused(s, a, s');
    }
  }

  /** A sound, checked action keeps every directory under the root exactly when
      the directory it puts a name in is still there when it commits. */
  lemma AttachedKeptIff(s: FS, a: Action, s': FS)
    requires Inv(s) && TreeOk(s) && Attached(s) && IsDir(s.born, ROOT) && Next(s, a, s') && Sound(s, a) && Checked(s, a)
    ensures Attached(s') <==> ParentThere(s, a)
  {
    AttachedIsHoused(s);
    HousedKeptIff(s, a, s');
    StepKeepsIff(s, a, s');
    StepKeepsTreeIff(s, a, s');
    if ParentThere(s, a) {
      HousedIsAttached(s');
    } else if Attached(s') {
      AttachedIsHoused(s');
    }
  }

  // --- Every run -----------------------------------------------------------------------------

  /** The first `t` actions are sound, and each rename of a directory is checked
      against the tree it changes. */
  ghost predicate Careful(run: seq<FS>, acts: seq<Action>, t: nat)
    requires t <= |acts| && |run| == |acts| + 1
  {
    forall i :: 0 <= i < t ==> Sound(run[i], acts[i]) && Checked(run[i], acts[i])
  }

  /** Serially executed, renames never tie the tree into a knot. */
  lemma {:induction false} TreeAlways(run: seq<FS>, acts: seq<Action>, t: nat)
    requires IsRun(run, acts) && t < |run| && Careful(run, acts, t)
    ensures TreeOk(run[t])
  {
    if t == 0 {
      EmptyIsAcyclic();
      assert IsTree(map[], run[0].names, run[0].born);
    } else {
      TreeAlways(run, acts, t - 1);
      RunKeeps(run, acts, t - 1);
      assert StepAt(run, acts, t - 1);
      StepKeepsTreeIff(run[t - 1], acts[t - 1], run[t]);
    }
  }

  lemma {:induction false} HousedAlways(run: seq<FS>, acts: seq<Action>, t: nat)
    requires IsRun(run, acts) && t < |run| && Careful(run, acts, t)
    requires forall i :: 0 <= i < t ==> ParentThere(run[i], acts[i])
    ensures Housed(run[t].names, run[t].inodes) && IsDir(run[t].born, ROOT)
  {
    if t > 0 {
      HousedAlways(run, acts, t - 1);
      TreeAlways(run, acts, t - 1);
      RunKeeps(run, acts, t - 1);
      assert StepAt(run, acts, t - 1);
      HousedKeptIff(run[t - 1], acts[t - 1], run[t]);
      BornStays(run[t - 1], acts[t - 1], run[t], ROOT);
    }
  }

  lemma BornStays(s: FS, a: Action, s': FS, ino: nat)
    requires Next(s, a, s') && IsDir(s.born, ino)
    ensures IsDir(s'.born, ino)
  {
  }

  /** ... and while every name goes into a directory that is still there, every
      directory stays under the root. */
  lemma AttachedAlways(run: seq<FS>, acts: seq<Action>, t: nat)
    requires IsRun(run, acts) && t < |run| && Careful(run, acts, t)
    requires forall i :: 0 <= i < t ==> ParentThere(run[i], acts[i])
    ensures Attached(run[t])
  {
    HousedAlways(run, acts, t);
    TreeAlways(run, acts, t);
    RunKeeps(run, acts, t);
    HousedIsAttached(run[t]);
  }
}
