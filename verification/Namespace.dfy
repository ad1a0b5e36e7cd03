/** Directory entries and link counts under transactions planned from possibly
    stale reads (pkg/metadata/dirent.go). */
module Namespace {
  import opened Common

  datatype Name = Name(parent: nat, name: string)

  datatype Inode = Inode(dir: bool, nlink: nat)

  /** A stored value and the revision that last changed it. */
  datatype Ver<T> = Ver(val: T, rev: nat)

  type Names = map<Name, Ver<nat>>

  const ROOT: nat := 1

  /** The stored entries and inodes. For the record: every inode ever created
      with its type, and every version ever stored, which is what a stale read
      may have returned. */
  datatype FS = FS(names: Names, inodes: Inodes, rev: nat, born: map<nat, bool>,
                   seenNames: set<(Name, Ver<nat>)>, seenInodes: set<(nat, Ver<Inode>)>)

  predicate IsDir(born: map<nat, bool>, ino: nat) {
    ino in born && born[ino]
  }

  function NamesOf(names: Names, ino: nat): set<Name> {
    set nm | nm in names && names[nm].val == ino
  }

  /** The entries of a directory that name directories. */
  function Subdirs(names: Names, born: map<nat, bool>, dir: nat): set<Name> {
    set nm | nm in names && nm.parent == dir && IsDir(born, names[nm].val)
  }

  // --- The invariant ----------------------------------------------------------------

  /** A file's link count is its number of names; a directory's is 2 plus its
      subdirectories, and it has one name, or none if it is the root. */
  ghost predicate LinksOk(names: Names, born: map<nat, bool>, ino: nat, rec: Inode) {
    && IsDir(born, ino) == rec.dir
    && (if rec.dir then rec.nlink == 2 + |Subdirs(names, born, ino)| && |NamesOf(names, ino)| == (if ino == ROOT then 0 else 1)
        else rec.nlink == |NamesOf(names, ino)|)
  }

  type Inodes = map<nat, Ver<Inode>>

  ghost predicate Consistent(names: Names, inodes: Inodes, born: map<nat, bool>) {
    && (forall nm :: nm in names ==> names[nm].val in inodes && IsDir(born, nm.parent))
    && (forall ino :: ino in inodes ==> ino in born && LinksOk(names, born, ino, inodes[ino].val))
  }

  /** Stored versions are on record, and a revision pins one version. */
  ghost predicate Recorded<K(!new), T(!new)>(seen: set<(K, Ver<T>)>, now: map<K, Ver<T>>, rev: nat) {
    && (forall k :: k in now ==> (k, now[k]) in seen)
    && (forall x, y :: x in seen && y in seen && x.0 == y.0 && x.1.rev == y.1.rev ==> x == y)
    && (forall x :: x in seen ==> x.1.rev <= rev)
  }

  /** What was ever stored of an inode is of its type; a directory never had a
      count below two. */
  ghost predicate Typed(seen: set<(nat, Ver<Inode>)>, born: map<nat, bool>) {
    forall x :: x in seen ==> x.0 in born && born[x.0] == x.1.val.dir && (x.1.val.dir ==> x.1.val.nlink >= 2)
  }

  ghost predicate Inv(s: FS) {
    && Consistent(s.names, s.inodes, s.born)
    && Recorded(s.seenNames, s.names, s.rev) && Recorded(s.seenInodes, s.inodes, s.rev) && Typed(s.seenInodes, s.born)
  }

  // --- Counting ---------------------------------------------------------------------

  function One(b: bool): nat {
    if b then 1 else 0
  }

  predicate IsSub(born: map<nat, bool>, nm: Name, ino: nat, dir: nat) {
    nm.parent == dir && IsDir(born, ino)
  }

  lemma NamesDel(names: Names, nm: Name, x: nat)
    requires nm in names
    ensures |NamesOf(names - {nm}, x)| + One(names[nm].val == x) == |NamesOf(names, x)|
  {
    assert NamesOf(names - {nm}, x) == NamesOf(names, x) - {nm};
  }

  lemma SubdirsDel(names: Names, born: map<nat, bool>, nm: Name, x: nat)
    requires nm in names
    ensures |Subdirs(names - {nm}, born, x)| + One(IsSub(born, nm, names[nm].val, x)) == |Subdirs(names, born, x)|
  {
    assert Subdirs(names - {nm}, born, x) == Subdirs(names, born, x) - {nm};
  }

  lemma NamesAdd(names: Names, nm: Name, v: Ver<nat>, x: nat)
    requires nm !in names
    ensures |NamesOf(names[nm := v], x)| == |NamesOf(names, x)| + One(v.val == x)
  {
    assert NamesOf(names[nm := v], x) == if v.val == x then NamesOf(names, x) + {nm} else NamesOf(names, x);
  }

  lemma SubdirsAdd(names: Names, born: map<nat, bool>, nm: Name, v: Ver<nat>, x: nat)
    requires nm !in names
    ensures |Subdirs(names[nm := v], born, x)| == |Subdirs(names, born, x)| + One(IsSub(born, nm, v.val, x))
  {
    assert Subdirs(names[nm := v], born, x)
           == if IsSub(born, nm, v.val, x) then Subdirs(names, born, x) + {nm} else Subdirs(names, born, x);
  }

  /** An inode nobody names yet changes no count. */
  lemma CountBorn(names: Names, born: map<nat, bool>, ino: nat, dir: bool, x: nat)
    requires ino !in born && forall nm :: nm in names ==> names[nm].val in born
    ensures Subdirs(names, born[ino := dir], x) == Subdirs(names, born, x)
    ensures NamesOf(names, ino) == {}
  {
  }

  // --- Operations -------------------------------------------------------------------

  /** The state after a transaction: one revision later, its versions on record. */
  function Committed(s: FS, names: Names, inodes: Inodes, born: map<nat, bool>): FS {
    FS(names, inodes, s.rev + 1, born,
       s.seenNames + Versions(names), s.seenInodes + Versions(inodes))
  }

  /** The inode is where a read that may be stale saw it. */
  ghost predicate InodePinned(s: FS, ino: nat, v: Ver<Inode>) {
    (ino, v) in s.seenInodes && ino in s.inodes && s.inodes[ino].rev == v.rev
  }

  ghost predicate NamePinned(s: FS, nm: Name, v: Ver<nat>) {
    (nm, v) in s.seenNames && nm in s.names && s.names[nm].rev == v.rev
  }

  /** A directory whose count the transaction moves: pinned, or gone. */
  ghost predicate DirPinned(s: FS, dir: nat, v: Option<Ver<Inode>>) {
    if v.Some? then InodePinned(s, dir, v.value) else dir !in s.inodes
  }

  ghost predicate DirEmpty(names: Names, dir: nat) {
    forall nm :: nm in names ==> nm.parent != dir
  }

  /** Moves a directory's link count, unless there is no record, nothing to
      move, or no count to take from. */
  function Adjusted(inodes: Inodes, dir: nat, v: Option<Ver<Inode>>, delta: int, rev: nat): Inodes {
    if v.Some? && delta != 0 && v.value.val.nlink + delta >= 0
    then inodes[dir := Ver(Inode(v.value.val.dir, v.value.val.nlink + delta), rev)]
    else inodes
  }

  /** Drops one reference to an inode: a directory goes with its name, a file
      when no name is left. */
  function Dropped(inodes: Inodes, ino: nat, rec: Inode, rev: nat): Inodes {
    if rec.dir || rec.nlink <= 1 then inodes - {ino}
    else inodes[ino := Ver(Inode(false, rec.nlink - 1), rev)]
  }

  /** ... but a file held open here keeps its record with no links. */
  function Unlinked(inodes: Inodes, ino: nat, rec: Inode, open: bool, r: nat): Inodes {
    if rec.nlink <= 1 && !rec.dir && open then inodes[ino := Ver(Inode(false, 0), r)] else Dropped(inodes, ino, rec, r)
  }

  datatype Action =
    | Create(nm: Name, ino: nat)
    | Mkdir(nm: Name, ino: nat, pv: Option<Ver<Inode>>)
    | Link(ino: nat, nm: Name, v: Ver<Inode>)
    | Unlink(nm: Name, dv: Ver<nat>, v: Ver<Inode>, open: bool)
    | Rmdir(nm: Name, dv: Ver<nat>, v: Ver<Inode>, pv: Option<Ver<Inode>>)
    | Rename(src: Name, dst: Name, ino: nat, srcDir: bool, target: Option<(Ver<nat>, Ver<Inode>)>,
             from: Option<Ver<Inode>>, into: Option<Ver<Inode>>)
    | DropOrphan(ino: nat, v: Ver<Inode>)
    | Touch(ino: nat, v: Ver<Inode>)

  ghost predicate CreateStep(s: FS, nm: Name, ino: nat, s': FS) {
    && nm !in s.names && ino !in s.inodes && ino !in s.born && IsDir(s.born, nm.parent)
    && s' == Committed(s, s.names[nm := Ver(ino, s.rev + 1)], s.inodes[ino := Ver(Inode(false, 1), s.rev + 1)],
                       s.born[ino := false])
  }

  ghost predicate MkdirStep(s: FS, nm: Name, ino: nat, pv: Option<Ver<Inode>>, s': FS) {
    && nm !in s.names && ino !in s.inodes && ino !in s.born && ino != ROOT && IsDir(s.born, nm.parent)
    && DirPinned(s, nm.parent, pv)
    && s' == Committed(s, s.names[nm := Ver(ino, s.rev + 1)],
                       Adjusted(s.inodes[ino := Ver(Inode(true, 2), s.rev + 1)], nm.parent, pv, 1, s.rev + 1),
                       s.born[ino := true])
  }

  ghost predicate LinkStep(s: FS, ino: nat, nm: Name, v: Ver<Inode>, s': FS) {
    && nm !in s.names && InodePinned(s, ino, v) && !v.val.dir && IsDir(s.born, nm.parent)
    && s' == Committed(s, s.names[nm := Ver(ino, s.rev + 1)],
                       s.inodes[ino := Ver(Inode(false, v.val.nlink + 1), s.rev + 1)], s.born)
  }

  /** The name goes, and one reference with it. */
  ghost predicate UnlinkStep(s: FS, nm: Name, dv: Ver<nat>, v: Ver<Inode>, open: bool, s': FS) {
    && NamePinned(s, nm, dv) && InodePinned(s, dv.val, v)
    && s' == Committed(s, s.names - {nm}, Unlinked(s.inodes, dv.val, v.val, open, s.rev + 1), s.born)
  }

  ghost predicate RmdirStep(s: FS, nm: Name, dv: Ver<nat>, v: Ver<Inode>, pv: Option<Ver<Inode>>, s': FS) {
    && NamePinned(s, nm, dv) && InodePinned(s, dv.val, v) && v.val.dir && DirEmpty(s.names, dv.val)
    && DirPinned(s, nm.parent, pv)
    && s' == Committed(s, s.names - {nm}, Adjusted(s.inodes - {dv.val}, nm.parent, pv, -1, s.rev + 1), s.born)
  }

  function FromDelta(src: Name, dst: Name, srcDir: bool): int {
    if srcDir && src.parent != dst.parent then -1 else 0
  }

  function IntoDelta(src: Name, dst: Name, srcDir: bool, victimDir: bool): int {
    (if srcDir && src.parent != dst.parent then 1 else 0) - (if victimDir then 1 else 0)
  }

  /** The victim's record after the rename, if there is a victim. */
  function AfterVictim(inodes: Inodes, a: Action, r: nat): Inodes
    requires a.Rename?
  {
    if a.target.Some? then Dropped(inodes, a.target.value.0.val, a.target.value.1.val, r) else inodes
  }

  /** The rename replaces a directory. */
  predicate ReplacesDir(a: Action)
    requires a.Rename?
  {
    a.target.Some? && a.target.value.1.val.dir
  }

  function AfterRename(inodes: Inodes, a: Action, r: nat): Inodes
    requires a.Rename?
  {
    Adjusted(Adjusted(AfterVictim(inodes, a, r), a.src.parent, a.from, FromDelta(a.src, a.dst, a.srcDir), r),
             a.dst.parent, a.into, IntoDelta(a.src, a.dst, a.srcDir, ReplacesDir(a)), r)
  }

  /** Compared: the source name exists; the target is absent, or it and its
      inode are unchanged, of the source's kind, and empty if a directory; the
      two parents are unchanged where a count moves. Not compared: that the
      source still names the inode being moved. */
  ghost predicate RenameStep(s: FS, a: Action, s': FS)
    requires a.Rename?
  {
    && a.src != a.dst && a.src in s.names && IsDir(s.born, a.dst.parent)
    && ((a.srcDir <==> IsDir(s.born, a.ino)) || (!a.srcDir && a.ino !in s.inodes))
    && (if a.target.None? then a.dst !in s.names
        else var (tv, v) := a.target.value;
          && NamePinned(s, a.dst, tv) && InodePinned(s, tv.val, v) && v.val.dir == a.srcDir
          && (v.val.dir ==> DirEmpty(s.names, tv.val)))
    && DirPinned(s, a.src.parent, a.from) && DirPinned(s, a.dst.parent, a.into)
    && s' == Committed(s, (s.names - {a.src})[a.dst := Ver(a.ino, s.rev + 1)], AfterRename(s.inodes, a, s.rev + 1), s.born)
  }

  /** The record of a file read with no links is deleted, compared with nothing. */
  ghost predicate DropOrphanStep(s: FS, ino: nat, v: Ver<Inode>, s': FS) {
    && (ino, v) in s.seenInodes && v.val.nlink == 0
    && s' == Committed(s, s.names, s.inodes - {ino}, s.born)
  }

  ghost predicate TouchStep(s: FS, ino: nat, v: Ver<Inode>, s': FS) {
    && InodePinned(s, ino, v)
    && s' == Committed(s, s.names, s.inodes[ino := Ver(v.val, s.rev + 1)], s.born)
  }

  ghost predicate Next(s: FS, a: Action, s': FS) {
    match a
    case Create(nm, ino) => CreateStep(s, nm, ino, s')
    case Mkdir(nm, ino, pv) => MkdirStep(s, nm, ino, pv, s')
    case Link(ino, nm, v) => LinkStep(s, ino, nm, v, s')
    case Unlink(nm, dv, v, open) => UnlinkStep(s, nm, dv, v, open, s')
    case Rmdir(nm, dv, v, pv) => RmdirStep(s, nm, dv, v, pv, s')
    case Rename(_, _, _, _, _, _, _) => RenameStep(s, a, s')
    case DropOrphan(ino, v) => DropOrphanStep(s, ino, v, s')
    case Touch(ino, v) => TouchStep(s, ino, v, s')
  }

  /** A comparison that holds pins the stored version to the one read. */
  lemma Pins<K(!new), T(!new)>(seen: set<(K, Ver<T>)>, now: map<K, Ver<T>>, rev: nat, k: K, v: Ver<T>)
    requires Recorded(seen, now, rev) && (k, v) in seen && k in now && now[k].rev == v.rev
    ensures now[k] == v
  {
    var x, y := (k, now[k]), (k, v);
    assert x in seen && y in seen && x == y;
  }

  // --- What every operation keeps -------------------------------------------------

  ghost predicate FreshOrSame<K(!new), T(!new)>(was: map<K, Ver<T>>, now: map<K, Ver<T>>, rev: nat) {
    forall k :: k in now ==> (k in was && now[k] == was[k]) || now[k].rev == rev
  }

  lemma FreshPut<K(!new), T(!new)>(was: map<K, Ver<T>>, now: map<K, Ver<T>>, k: K, v: Ver<T>, rev: nat)
    requires FreshOrSame(was, now, rev) && v.rev == rev
    ensures FreshOrSame(was, now[k := v], rev)
  {
  }

  lemma FreshDel<K(!new), T(!new)>(was: map<K, Ver<T>>, now: map<K, Ver<T>>, k: K, rev: nat)
    requires FreshOrSame(was, now, rev)
    ensures FreshOrSame(was, now - {k}, rev)
  {
  }

  ghost predicate Extends(born: map<nat, bool>, born': map<nat, bool>) {
    forall ino :: ino in born ==> ino in born' && born'[ino] == born[ino]
  }

  lemma ExtendsBy(born: map<nat, bool>, ino: nat, dir: bool)
    ensures Extends(born, born) && (ino !in born ==> Extends(born, born[ino := dir]))
  {
  }

  function Versions<K, T(==)>(now: map<K, Ver<T>>): set<(K, Ver<T>)> {
    set k | k in now :: (k, now[k])
  }

  lemma StaysRecorded<K(!new), T(!new)>(seen: set<(K, Ver<T>)>, was: map<K, Ver<T>>, now: map<K, Ver<T>>, rev: nat)
    requires Recorded(seen, was, rev) && FreshOrSame(was, now, rev + 1)
    ensures Recorded(seen + Versions(now), now, rev + 1)
  {
    var all := seen + Versions(now);
    forall x, y | x in all && y in all && x.0 == y.0 && x.1.rev == y.1.rev ensures x == y {
      assert x in Versions(now) ==> x.1 == now[x.0] && (x in seen || x.1.rev == rev + 1);
      assert y in Versions(now) ==> y.1 == now[y.0] && (y in seen || y.1.rev == rev + 1);
    }
  }

  lemma StaysTyped(seen: set<(nat, Ver<Inode>)>, names: Names, inodes: Inodes, born: map<nat, bool>, born': map<nat, bool>)
    requires Typed(seen, born) && Consistent(names, inodes, born')
    requires Extends(born, born')
    ensures Typed(seen + Versions(inodes), born')
  {
    forall x | x in Versions(inodes)
      ensures x.0 in born' && born'[x.0] == x.1.val.dir && (x.1.val.dir ==> x.1.val.nlink >= 2)
    {
      assert LinksOk(names, born', x.0, inodes[x.0].val);
    }
  }

  /** A transaction that leaves the counts right leaves the invariant. */
  lemma CommitInv(s: FS, names: Names, inodes: Inodes, born: map<nat, bool>)
    requires Inv(s) && Consistent(names, inodes, born)
    requires FreshOrSame(s.names, names, s.rev + 1) && FreshOrSame(s.inodes, inodes, s.rev + 1)
    requires Extends(s.born, born)
    ensures Inv(Committed(s, names, inodes, born))
  {
    StaysRecorded(s.seenNames, s.names, names, s.rev);
    StaysRecorded(s.seenInodes, s.inodes, inodes, s.rev);
    StaysTyped(s.seenInodes, names, inodes, s.born, born);
  }

  // Create.

  lemma CreateCounts(names: Names, inodes: Inodes, born: map<nat, bool>, nm: Name, ino: nat, r: nat)
    requires Consistent(names, inodes, born) && nm !in names && ino !in born && IsDir(born, nm.parent)
    ensures Consistent(names[nm := Ver(ino, r)], inodes[ino := Ver(Inode(false, 1), r)], born[ino := false])
  {
    var names', inodes', born' := names[nm := Ver(ino, r)], inodes[ino := Ver(Inode(false, 1), r)], born[ino := false];
    forall x | x in inodes' ensures LinksOk(names', born', x, inodes'[x].val) {
      CountBorn(names, born, ino, false, x);
      NamesAdd(names, nm, Ver(ino, r), x);
      SubdirsAdd(names, born', nm, Ver(ino, r), x);
      assert x != ino ==> LinksOk(names, born, x, inodes[x].val);
    }
  }

  lemma CreateInv(s: FS, nm: Name, ino: nat, s': FS)
    requires Inv(s) && CreateStep(s, nm, ino, s')
    ensures Inv(s')
  {
    var r := s.rev + 1;
    FreshPut(s.names, s.names, nm, Ver(ino, r), r);
    FreshPut(s.inodes, s.inodes, ino, Ver(Inode(false, 1), r), r);
    ExtendsBy(s.born, ino, false);
    CreateCounts(s.names, s.inodes, s.born, nm, ino, r);
    CommitInv(s, s.names[nm := Ver(ino, r)], s.inodes[ino := Ver(Inode(false, 1), r)], s.born[ino := false]);
  }

  // Mkdir.

  /** What the plan knows of a directory is what is stored. */
  ghost predicate Exact(inodes: Inodes, dir: nat, v: Option<Ver<Inode>>) {
    if v.Some? then dir in inodes && inodes[dir] == v.value else dir !in inodes
  }

  lemma DirIsExact(s: FS, dir: nat, v: Option<Ver<Inode>>)
    requires Recorded(s.seenInodes, s.inodes, s.rev) && DirPinned(s, dir, v)
    ensures Exact(s.inodes, dir, v)
  {
    if v.Some? {
      Pins(s.seenInodes, s.inodes, s.rev, dir, v.value);
    }
  }

  lemma FreshAdjust(was: Inodes, now: Inodes, dir: nat, v: Option<Ver<Inode>>, delta: int, rev: nat)
    requires FreshOrSame(was, now, rev)
    ensures FreshOrSame(was, Adjusted(now, dir, v, delta, rev), rev)
  {
  }

  /** A number never used is no entry's parent. */
  lemma NothingInside(names: Names, born: map<nat, bool>, ino: nat)
    requires ino !in born && forall nm :: nm in names ==> IsDir(born, nm.parent)
    ensures Subdirs(names, born, ino) == {}
  {
  }

  lemma MkdirCounts(names: Names, inodes: Inodes, born: map<nat, bool>, nm: Name, ino: nat, pv: Option<Ver<Inode>>, r: nat)
    requires Consistent(names, inodes, born) && nm !in names && ino !in born && ino != ROOT && IsDir(born, nm.parent)
    requires Exact(inodes, nm.parent, pv)
    ensures Consistent(names[nm := Ver(ino, r)], Adjusted(inodes[ino := Ver(Inode(true, 2), r)], nm.parent, pv, 1, r), born[ino := true])
  {
    var names', born' := names[nm := Ver(ino, r)], born[ino := true];
    var inodes' := Adjusted(inodes[ino := Ver(Inode(true, 2), r)], nm.parent, pv, 1, r);
    forall x | x in inodes' ensures LinksOk(names', born', x, inodes'[x].val) {
      MkdirCount(names, inodes, born, nm, ino, pv, r, x);
    }
  }

  lemma MkdirCount(names: Names, inodes: Inodes, born: map<nat, bool>, nm: Name, ino: nat, pv: Option<Ver<Inode>>, r: nat, x: nat)
    requires Consistent(names, inodes, born) && nm !in names && ino !in born && ino != ROOT && IsDir(born, nm.parent)
    requires Exact(inodes, nm.parent, pv) && (x in inodes || x == ino)
    ensures var inodes' := Adjusted(inodes[ino := Ver(Inode(true, 2), r)], nm.parent, pv, 1, r);
            x in inodes' && LinksOk(names[nm := Ver(ino, r)], born[ino := true], x, inodes'[x].val)
  {
    NothingInside(names, born, ino);
    CountBorn(names, born, ino, true, x);
    NamesAdd(names, nm, Ver(ino, r), x);
    SubdirsAdd(names, born[ino := true], nm, Ver(ino, r), x);
    assert x != ino ==> LinksOk(names, born, x, inodes[x].val);
  }

  lemma MkdirInv(s: FS, nm: Name, ino: nat, pv: Option<Ver<Inode>>, s': FS)
    requires Inv(s) && MkdirStep(s, nm, ino, pv, s')
    ensures Inv(s')
  {
    var r := s.rev + 1;
    var made := s.inodes[ino := Ver(Inode(true, 2), r)];
    DirIsExact(s, nm.parent, pv);
    FreshPut(s.names, s.names, nm, Ver(ino, r), r);
    FreshPut(s.inodes, s.inodes, ino, Ver(Inode(true, 2), r), r);
    FreshAdjust(s.inodes, made, nm.parent, pv, 1, r);
    ExtendsBy(s.born, ino, true);
    MkdirCounts(s.names, s.inodes, s.born, nm, ino, pv, r);
    CommitInv(s, s.names[nm := Ver(ino, r)], Adjusted(made, nm.parent, pv, 1, r), s.born[ino := true]);
  }

  // Link.

  lemma LinkCounts(names: Names, inodes: Inodes, born: map<nat, bool>, ino: nat, nm: Name, r: nat)
    requires Consistent(names, inodes, born) && nm !in names && ino in inodes && !inodes[ino].val.dir && IsDir(born, nm.parent)
    ensures Consistent(names[nm := Ver(ino, r)], inodes[ino := Ver(Inode(false, inodes[ino].val.nlink + 1), r)], born)
  {
    var names', inodes' := names[nm := Ver(ino, r)], inodes[ino := Ver(Inode(false, inodes[ino].val.nlink + 1), r)];
    forall x | x in inodes' ensures LinksOk(names', born, x, inodes'[x].val) {
      NamesAdd(names, nm, Ver(ino, r), x);
      SubdirsAdd(names, born, nm, Ver(ino, r), x);
      assert LinksOk(names, born, x, inodes[x].val) && LinksOk(names, born, ino, inodes[ino].val);
    }
  }

  lemma LinkInv(s: FS, ino: nat, nm: Name, v: Ver<Inode>, s': FS)
    requires Inv(s) && LinkStep(s, ino, nm, v, s')
    ensures Inv(s')
  {
    var r := s.rev + 1;
    Pins(s.seenInodes, s.inodes, s.rev, ino, v);
    FreshPut(s.names, s.names, nm, Ver(ino, r), r);
    FreshPut(s.inodes, s.inodes, ino, Ver(Inode(false, v.val.nlink + 1), r), r);
    ExtendsBy(s.born, ino, false);
    LinkCounts(s.names, s.inodes, s.born, ino, nm, r);
    CommitInv(s, s.names[nm := Ver(ino, r)], s.inodes[ino := Ver(Inode(false, v.val.nlink + 1), r)], s.born);
  }

  // Unlink.

  /** What an unlink leaves of the inodes. */
  lemma FreshUnlink(was: Inodes, ino: nat, rec: Inode, open: bool, r: nat)
    ensures FreshOrSame(was, Unlinked(was, ino, rec, open, r), r) && FreshOrSame(was, Dropped(was, ino, rec, r), r)
  {
  }

  /** What nothing names is named by nothing. */
  lemma NoNames(names: Names, ino: nat)
    requires |NamesOf(names, ino)| == 0
    ensures forall nm :: nm in names ==> names[nm].val != ino
  {
    forall nm | nm in names ensures names[nm].val != ino {
      assert nm in NamesOf(names, ino) <==> names[nm].val == ino;
    }
  }

  lemma UnlinkCounts(names: Names, inodes: Inodes, born: map<nat, bool>, nm: Name, open: bool, r: nat)
    requires Consistent(names, inodes, born) && nm in names
    requires !inodes[names[nm].val].val.dir || nm.parent !in inodes || nm.parent == names[nm].val
    ensures Consistent(names - {nm}, Unlinked(inodes, names[nm].val, inodes[names[nm].val].val, open, r), born)
  {
    var ino := names[nm].val;
    var rec := inodes[ino].val;
    var names', inodes' := names - {nm}, Unlinked(inodes, ino, rec, open, r);
    NamesDel(names, nm, ino);
    assert LinksOk(names, born, ino, rec);
    if |NamesOf(names', ino)| == 0 {
      NoNames(names', ino);
    }
    forall x | x in inodes' ensures LinksOk(names', born, x, inodes'[x].val) {
      NamesDel(names, nm, x);
      SubdirsDel(names, born, nm, x);
      assert LinksOk(names, born, x, inodes[x].val);
    }
  }

  /** The name is a directory's, in another directory that still exists. */
  predicate TakesSubdir(s: FS, nm: Name, dv: Ver<nat>, v: Ver<Inode>) {
    v.val.dir && nm.parent in s.inodes && nm.parent != dv.val
  }

  lemma UnlinkInv(s: FS, nm: Name, dv: Ver<nat>, v: Ver<Inode>, open: bool, s': FS)
    requires Inv(s) && UnlinkStep(s, nm, dv, v, open, s') && !TakesSubdir(s, nm, dv, v)
    ensures Inv(s')
  {
    var r := s.rev + 1;
    Pins(s.seenNames, s.names, s.rev, nm, dv);
    Pins(s.seenInodes, s.inodes, s.rev, dv.val, v);
    FreshDel(s.names, s.names, nm, r);
    FreshUnlink(s.inodes, dv.val, v.val, open, r);
    ExtendsBy(s.born, dv.val, false);
    UnlinkCounts(s.names, s.inodes, s.born, nm, open, r);
    CommitInv(s, s.names - {nm}, Unlinked(s.inodes, dv.val, v.val, open, r), s.born);
  }

  /** An unlink keeps the counts right exactly when it does not take a directory
      out of a directory that still exists. */
  lemma UnlinkKeepsIff(s: FS, nm: Name, dv: Ver<nat>, v: Ver<Inode>, open: bool, s': FS)
    requires Inv(s) && UnlinkStep(s, nm, dv, v, open, s')
    ensures Inv(s') <==> !TakesSubdir(s, nm, dv, v)
  {
    if !TakesSubdir(s, nm, dv, v) {
      UnlinkInv(s, nm, dv, v, open, s');
    } else {
      Pins(s.seenNames, s.names, s.rev, nm, dv);
      Pins(s.seenInodes, s.inodes, s.rev, dv.val, v);
      UnlinkedDirBreaks(s.names, s.inodes, s.born, nm, open, s.rev + 1);
    }
  }

  lemma UnlinkedDirBreaks(names: Names, inodes: Inodes, born: map<nat, bool>, nm: Name, open: bool, r: nat)
    requires Consistent(names, inodes, born) && nm in names && inodes[names[nm].val].val.dir
    requires nm.parent in inodes && nm.parent != names[nm].val
    ensures !Consistent(names - {nm}, Unlinked(inodes, names[nm].val, inodes[names[nm].val].val, open, r), born)
  {
    var ino, p := names[nm].val, nm.parent;
    var names', inodes' := names - {nm}, Unlinked(inodes, ino, inodes[ino].val, open, r);
    assert LinksOk(names, born, p, inodes[p].val) && LinksOk(names, born, ino, inodes[ino].val);
    SubdirsDel(names, born, nm, p);
    NamesDel(names, nm, p);
    assert p in inodes' && !LinksOk(names', born, p, inodes'[p].val);
  }

  // Rmdir.

  lemma RmdirCounts(names: Names, inodes: Inodes, born: map<nat, bool>, nm: Name, pv: Option<Ver<Inode>>, r: nat)
    requires Consistent(names, inodes, born) && nm in names && inodes[names[nm].val].val.dir && DirEmpty(names, names[nm].val)
    requires Exact(inodes, nm.parent, pv)
    ensures Consistent(names - {nm}, Adjusted(inodes - {names[nm].val}, nm.parent, pv, -1, r), born)
  {
    var ino := names[nm].val;
    var names', inodes' := names - {nm}, Adjusted(inodes - {ino}, nm.parent, pv, -1, r);
    NamesDel(names, nm, ino);
    assert LinksOk(names, born, ino, inodes[ino].val);
    NoNames(names', ino);
    forall x | x in inodes' ensures LinksOk(names', born, x, inodes'[x].val) {
      NamesDel(names, nm, x);
      SubdirsDel(names, born, nm, x);
      assert LinksOk(names, born, x, inodes[x].val);
    }
  }

  lemma RmdirInv(s: FS, nm: Name, dv: Ver<nat>, v: Ver<Inode>, pv: Option<Ver<Inode>>, s': FS)
    requires Inv(s) && RmdirStep(s, nm, dv, v, pv, s')
    ensures Inv(s')
  {
    var r := s.rev + 1;
    Pins(s.seenNames, s.names, s.rev, nm, dv);
    Pins(s.seenInodes, s.inodes, s.rev, dv.val, v);
    DirIsExact(s, nm.parent, pv);
    FreshDel(s.names, s.names, nm, r);
    FreshDel(s.inodes, s.inodes, dv.val, r);
    FreshAdjust(s.inodes, s.inodes - {dv.val}, nm.parent, pv, -1, r);
    ExtendsBy(s.born, dv.val, false);
    RmdirCounts(s.names, s.inodes, s.born, nm, pv, r);
    CommitInv(s, s.names - {nm}, Adjusted(s.inodes - {dv.val}, nm.parent, pv, -1, r), s.born);
  }

  // Touch and DropOrphan.

  lemma TouchInv(s: FS, ino: nat, v: Ver<Inode>, s': FS)
    requires Inv(s) && TouchStep(s, ino, v, s')
    ensures Inv(s')
  {
    var r := s.rev + 1;
    Pins(s.seenInodes, s.inodes, s.rev, ino, v);
    FreshPut(s.inodes, s.inodes, ino, Ver(v.val, r), r);
    ExtendsBy(s.born, ino, false);
    TouchCounts(s.names, s.inodes, s.born, ino, r);
    CommitInv(s, s.names, s.inodes[ino := Ver(v.val, r)], s.born);
  }

  lemma TouchCounts(names: Names, inodes: Inodes, born: map<nat, bool>, ino: nat, r: nat)
    requires Consistent(names, inodes, born) && ino in inodes
    ensures Consistent(names, inodes[ino := Ver(inodes[ino].val, r)], born)
  {
  }

  /** Deleting an orphan's record keeps the counts right exactly when the file
      has not been linked again since it was read. */
  lemma DropOrphanKeepsIff(s: FS, ino: nat, v: Ver<Inode>, s': FS)
    requires Inv(s) && DropOrphanStep(s, ino, v, s')
    ensures Inv(s') <==> (ino in s.inodes ==> s.inodes[ino].val.nlink == 0)
  {
    assert !v.val.dir;
    if ino in s.inodes {
      assert LinksOk(s.names, s.born, ino, s.inodes[ino].val);
      if s.inodes[ino].val.nlink > 0 {
        var nm :| nm in NamesOf(s.names, ino);
        assert nm in s'.names && s'.names[nm].val !in s'.inodes;
        return;
      }
      NoNames(s.names, ino);
    }
    FreshDel(s.inodes, s.inodes, ino, s.rev + 1);
    ExtendsBy(s.born, ino, false);
    GoneCounts(s.names, s.inodes, s.born, ino);
    CommitInv(s, s.names, s.inodes - {ino}, s.born);
  }

  lemma GoneCounts(names: Names, inodes: Inodes, born: map<nat, bool>, ino: nat)
    requires Consistent(names, inodes, born) && forall nm :: nm in names ==> names[nm].val != ino
    ensures Consistent(names, inodes - {ino}, born)
  {
  }

  // Rename.

  lemma RenamedNames(names: Names, src: Name, dst: Name, v: Ver<nat>, x: nat)
    requires src in names && src != dst
    ensures |NamesOf((names - {src})[dst := v], x)| + One(names[src].val == x) + One(dst in names && names[dst].val == x)
            == |NamesOf(names, x)| + One(v.val == x)
  {
    var rest := names - {src};
    NamesDel(names, src, x);
    if dst in names {
      NamesDel(rest, dst, x);
      NamesAdd(rest - {dst}, dst, v, x);
      assert (rest - {dst})[dst := v] == rest[dst := v];
    } else {
      NamesAdd(rest, dst, v, x);
    }
  }

  lemma RenamedSubdirs(names: Names, born: map<nat, bool>, src: Name, dst: Name, v: Ver<nat>, x: nat)
    requires src in names && src != dst
    ensures |Subdirs((names - {src})[dst := v], born, x)| + One(IsSub(born, src, names[src].val, x))
            + One(dst in names && IsSub(born, dst, names[dst].val, x))
            == |Subdirs(names, born, x)| + One(IsSub(born, dst, v.val, x))
  {
    var rest := names - {src};
    SubdirsDel(names, born, src, x);
    if dst in names {
      SubdirsDel(rest, born, dst, x);
      SubdirsAdd(rest - {dst}, born, dst, v, x);
      assert (rest - {dst})[dst := v] == rest[dst := v];
    } else {
      SubdirsAdd(rest, born, dst, v, x);
    }
  }

  /** The rename's reads are what is stored. */
  ghost predicate RenameFits(names: Names, inodes: Inodes, born: map<nat, bool>, a: Action) {
    && a.Rename? && a.src != a.dst && a.src in names && IsDir(born, a.dst.parent)
    && ((a.srcDir <==> IsDir(born, a.ino)) || (!a.srcDir && a.ino !in inodes))
    && (if a.target.None? then a.dst !in names
        else a.dst in names && names[a.dst] == a.target.value.0 && names[a.dst].val in inodes
             && inodes[names[a.dst].val] == a.target.value.1
             && a.target.value.1.val.dir == a.srcDir && (a.srcDir ==> DirEmpty(names, names[a.dst].val)))
    && Exact(inodes, a.src.parent, a.from) && Exact(inodes, a.dst.parent, a.into)
  }

  lemma RenameReads(s: FS, a: Action, s': FS)
    requires Inv(s) && a.Rename? && RenameStep(s, a, s')
    ensures RenameFits(s.names, s.inodes, s.born, a)
  {
    if a.target.Some? {
      Pins(s.seenNames, s.names, s.rev, a.dst, a.target.value.0);
      Pins(s.seenInodes, s.inodes, s.rev, a.target.value.0.val, a.target.value.1);
    }
    DirIsExact(s, a.src.parent, a.from);
    DirIsExact(s, a.dst.parent, a.into);
  }

  lemma FreshRename(inodes: Inodes, a: Action, r: nat)
    requires a.Rename?
    ensures FreshOrSame(inodes, AfterRename(inodes, a, r), r)
  {
    if a.target.Some? {
      FreshUnlink(inodes, a.target.value.0.val, a.target.value.1.val, false, r);
    }
    FreshAdjust(inodes, AfterVictim(inodes, a, r), a.src.parent, a.from, FromDelta(a.src, a.dst, a.srcDir), r);
    FreshAdjust(inodes, Adjusted(AfterVictim(inodes, a, r), a.src.parent, a.from, FromDelta(a.src, a.dst, a.srcDir), r),
                a.dst.parent, a.into, IntoDelta(a.src, a.dst, a.srcDir, ReplacesDir(a)), r);
  }

  /** A victim directory is neither parent: it is empty. */
  lemma VictimIsNoParent(names: Names, inodes: Inodes, born: map<nat, bool>, a: Action)
    requires RenameFits(names, inodes, born, a) && a.target.Some? && a.srcDir
    ensures names[a.dst].val != a.src.parent && names[a.dst].val != a.dst.parent
  {
  }

  /** A victim whose record goes was named by the target alone. */
  lemma VictimHadOneName(names: Names, inodes: Inodes, born: map<nat, bool>, a: Action)
    requires Consistent(names, inodes, born) && RenameFits(names, inodes, born, a) && a.target.Some?
    requires a.srcDir || a.target.value.1.val.nlink <= 1
    ensures forall nm :: nm in names && nm != a.dst ==> names[nm].val != names[a.dst].val
  {
    var w := names[a.dst].val;
    assert LinksOk(names, born, w, inodes[w].val);
    NamesDel(names, a.dst, w);
    NoNames(names - {a.dst}, w);
    forall nm | nm in names && nm != a.dst ensures names[nm].val != w {
      assert nm in names - {a.dst};
    }
  }

  lemma RenamedLinks(names: Names, inodes: Inodes, born: map<nat, bool>, a: Action, r: nat, x: nat)
    requires Consistent(names, inodes, born) && RenameFits(names, inodes, born, a) && names[a.src].val == a.ino
    requires x in AfterRename(inodes, a, r)
    ensures x in inodes && LinksOk((names - {a.src})[a.dst := Ver(a.ino, r)], born, x, AfterRename(inodes, a, r)[x].val)
  {
    if a.target.Some? && a.srcDir {
      VictimIsNoParent(names, inodes, born, a);
    }
    assert LinksOk(names, born, x, inodes[x].val);
    RenamedNames(names, a.src, a.dst, Ver(a.ino, r), x);
    RenamedSubdirs(names, born, a.src, a.dst, Ver(a.ino, r), x);
  }

  /** Only a victim's record goes. */
  lemma StaysStored(inodes: Inodes, a: Action, r: nat, x: nat)
    requires a.Rename? && x in inodes
    requires a.target.Some? && x == a.target.value.0.val ==> !a.target.value.1.val.dir && a.target.value.1.val.nlink > 1
    ensures x in AfterRename(inodes, a, r)
  {
  }

  lemma RenamedPoints(names: Names, inodes: Inodes, born: map<nat, bool>, a: Action, r: nat, nm: Name)
    requires Consistent(names, inodes, born) && RenameFits(names, inodes, born, a) && names[a.src].val == a.ino
    requires nm in names && nm != a.dst
    ensures names[nm].val in AfterRename(inodes, a, r)
  {
    if a.target.Some? && (a.srcDir || a.target.value.1.val.nlink <= 1) {
      VictimHadOneName(names, inodes, born, a);
    }
    StaysStored(inodes, a, r, names[nm].val);
  }

  lemma RenameCounts(names: Names, inodes: Inodes, born: map<nat, bool>, a: Action, r: nat)
    requires Consistent(names, inodes, born) && RenameFits(names, inodes, born, a) && names[a.src].val == a.ino
    ensures Consistent((names - {a.src})[a.dst := Ver(a.ino, r)], AfterRename(inodes, a, r), born)
  {
    var names', inodes' := (names - {a.src})[a.dst := Ver(a.ino, r)], AfterRename(inodes, a, r);
    forall nm | nm in names' ensures names'[nm].val in inodes' && IsDir(born, nm.parent) {
      RenamedPoints(names, inodes, born, a, r, if nm == a.dst then a.src else nm);
    }
    forall x | x in inodes' ensures x in born && LinksOk(names', born, x, inodes'[x].val) {
      RenamedLinks(names, inodes, born, a, r, x);
    }
  }

  /** Moving a name that no longer names the inode leaves the one it does name
      with a wrong count. */
  lemma StaleRenameBreaks(names: Names, inodes: Inodes, born: map<nat, bool>, a: Action, r: nat)
    requires Consistent(names, inodes, born) && RenameFits(names, inodes, born, a) && names[a.src].val != a.ino
    ensures !Consistent((names - {a.src})[a.dst := Ver(a.ino, r)], AfterRename(inodes, a, r), born)
  {
    var j := names[a.src].val;
    var names', inodes' := (names - {a.src})[a.dst := Ver(a.ino, r)], AfterRename(inodes, a, r);
    assert LinksOk(names, born, j, inodes[j].val);
    RenamedNames(names, a.src, a.dst, Ver(a.ino, r), j);
    if a.target.Some? && names[a.dst].val == j {
      TwoNames(names, a.src, a.dst, j);
    }
    StaysStored(inodes, a, r, j);
    StaleLinks(names, inodes, born, a, r, j);
  }

  lemma TwoNames(names: Names, a: Name, b: Name, ino: nat)
    requires a in names && b in names && a != b && names[a].val == ino && names[b].val == ino
    ensures |NamesOf(names, ino)| >= 2
  {
    NamesDel(names, a, ino);
    NamesDel(names - {a}, b, ino);
  }

  lemma StaleLinks(names: Names, inodes: Inodes, born: map<nat, bool>, a: Action, r: nat, j: nat)
    requires RenameFits(names, inodes, born, a) && j == names[a.src].val && j != a.ino && j in inodes && j in AfterRename(inodes, a, r)
    requires LinksOk(names, born, j, inodes[j].val)
    requires |NamesOf((names - {a.src})[a.dst := Ver(a.ino, r)], j)| + 1 + One(a.dst in names && names[a.dst].val == j)
             == |NamesOf(names, j)|
    requires a.dst in names && names[a.dst].val == j ==> !inodes[j].val.dir && inodes[j].val.nlink > 1
    requires IsDir(born, a.src.parent)
    ensures !LinksOk((names - {a.src})[a.dst := Ver(a.ino, r)], born, j, AfterRename(inodes, a, r)[j].val)
  {
  }

  lemma RenameInv(s: FS, a: Action)
    requires Inv(s) && RenameFits(s.names, s.inodes, s.born, a) && s.names[a.src].val == a.ino
    ensures Inv(Committed(s, (s.names - {a.src})[a.dst := Ver(a.ino, s.rev + 1)], AfterRename(s.inodes, a, s.rev + 1), s.born))
  {
    RenameCounts(s.names, s.inodes, s.born, a, s.rev + 1);
    RenameCommits(s, a, s.rev + 1);
  }

  lemma RenameBreaks(s: FS, a: Action)
    requires Inv(s) && RenameFits(s.names, s.inodes, s.born, a) && s.names[a.src].val != a.ino
    ensures !Inv(Committed(s, (s.names - {a.src})[a.dst := Ver(a.ino, s.rev + 1)], AfterRename(s.inodes, a, s.rev + 1), s.born))
  {
    StaleRenameBreaks(s.names, s.inodes, s.born, a, s.rev + 1);
  }

  /** A rename keeps the counts right exactly when the source still names the
      inode it moves. */
  lemma RenameKeepsIff(s: FS, a: Action, s': FS)
    requires Inv(s) && a.Rename? && RenameStep(s, a, s')
    ensures Inv(s') <==> s.names[a.src].val == a.ino
  {
    RenameReads(s, a, s');
    if s.names[a.src].val == a.ino {
      RenameInv(s, a);
    } else {
      RenameBreaks(s, a);
    }
  }

  lemma RenameCommits(s: FS, a: Action, r: nat)
    requires Inv(s) && a.Rename? && r == s.rev + 1
    requires Consistent((s.names - {a.src})[a.dst := Ver(a.ino, r)], AfterRename(s.inodes, a, r), s.born)
    ensures Inv(Committed(s, (s.names - {a.src})[a.dst := Ver(a.ino, r)], AfterRename(s.inodes, a, r), s.born))
  {
    FreshDel(s.names, s.names, a.src, r);
    FreshPut(s.names, s.names - {a.src}, a.dst, Ver(a.ino, r), r);
    FreshRename(s.inodes, a, r);
    ExtendsBy(s.born, a.ino, false);
    CommitInv(s, (s.names - {a.src})[a.dst := Ver(a.ino, r)], AfterRename(s.inodes, a, r), s.born);
  }

  // --- Every run ----------------------------------------------------------------------

  /** What the code leaves to its callers, or to chance: an unlinked name is not
      a subdirectory's, a renamed one still names its inode, and a dropped orphan
      has not been linked again. */
  ghost predicate Sound(s: FS, a: Action) {
    match a
    case Unlink(nm, dv, v, _) => !TakesSubdir(s, nm, dv, v)
    case Rename(src, _, ino, _, _, _, _) => src in s.names && s.names[src].val == ino
    case DropOrphan(ino, _) => ino in s.inodes ==> s.inodes[ino].val.nlink == 0
    case _ => true
  }

  /** An operation whose comparisons hold keeps names and counts consistent
      exactly when it is sound. */
  lemma StepKeepsIff(s: FS, a: Action, s': FS)
    requires Inv(s) && Next(s, a, s')
    ensures Inv(s') <==> Sound(s, a)
  {
    match a
    case Create(nm, ino) => CreateInv(s, nm, ino, s');
    case Mkdir(nm, ino, pv) => MkdirInv(s, nm, ino, pv, s');
    case Link(ino, nm, v) => LinkInv(s, ino, nm, v, s');
    case Unlink(nm, dv, v, open) => UnlinkKeepsIff(s, nm, dv, v, open, s');
    case Rmdir(nm, dv, v, pv) => RmdirInv(s, nm, dv, v, pv, s');
    case Rename(_, _, _, _, _, _, _) => RenameKeepsIff(s, a, s');
    case DropOrphan(ino, v) => DropOrphanKeepsIff(s, ino, v, s');
    case Touch(ino, v) => TouchInv(s, ino, v, s');
  }

  /** A filesystem with an empty root. */
  function Start(): FS {
    var root := Ver(Inode(true, 2), 0);
    FS(map[], map[ROOT := root], 0, map[ROOT := true], {}, {(ROOT, root)})
  }

  lemma StartInv()
    ensures Inv(Start())
  {
    var s := Start();
    assert Subdirs(s.names, s.born, ROOT) == {} && NamesOf(s.names, ROOT) == {};
  }

  ghost predicate StepAt(run: seq<FS>, acts: seq<Action>, i: nat)
    requires i < |acts| && i + 1 < |run|
  {
    Next(run[i], acts[i], run[i + 1])
  }

  ghost predicate IsRun(run: seq<FS>, acts: seq<Action>) {
    && |run| == |acts| + 1 && run[0] == Start()
    && forall i :: 0 <= i < |acts| ==> StepAt(run, acts, i)
  }

  /** Under every interleaving of sound operations planned from stale reads. */
  lemma {:induction false} RunKeeps(run: seq<FS>, acts: seq<Action>, t: nat)
    requires IsRun(run, acts) && t < |run| && forall i :: 0 <= i < t ==> Sound(run[i], acts[i])
    ensures Inv(run[t])
  {
    if t == 0 {
      StartInv();
    } else {
      RunKeeps(run, acts, t - 1);
      assert StepAt(run, acts, t - 1);
      StepKeepsIff(run[t - 1], acts[t - 1], run[t]);
    }
  }

  /** A name's inode exists; a file's count is its number of names, a
      directory's 2 plus its subdirectories. */
  lemma CountsAlwaysRight(run: seq<FS>, acts: seq<Action>, t: nat)
    requires IsRun(run, acts) && t < |run| && forall i :: 0 <= i < t ==> Sound(run[i], acts[i])
    ensures forall nm :: nm in run[t].names ==> run[t].names[nm].val in run[t].inodes
    ensures forall ino :: ino in run[t].inodes ==>
              var rec := run[t].inodes[ino].val;
              rec.nlink == if rec.dir then 2 + |Subdirs(run[t].names, run[t].born, ino)| else |NamesOf(run[t].names, ino)|
  {
    RunKeeps(run, acts, t);
    forall ino | ino in run[t].inodes ensures LinksOk(run[t].names, run[t].born, ino, run[t].inodes[ino].val) {
    }
  }

  /** An inode that is gone stays gone: its number is not used again. */
  lemma GoneStaysGone(s: FS, a: Action, s': FS, ino: nat)
    requires Next(s, a, s') && ino in s.born && ino !in s.inodes
    ensures ino in s'.born && ino !in s'.inodes
  {
  }

  /** So a plan that found a parent's record missing needs no comparison for it:
      however late it commits, the record is still missing. */
  lemma {:induction false} MissingStaysPinned(run: seq<FS>, acts: seq<Action>, i: nat, j: nat, dir: nat)
    requires IsRun(run, acts) && i <= j < |run| && dir in run[i].born && DirPinned(run[i], dir, None)
    ensures dir in run[j].born && DirPinned(run[j], dir, None)
  {
    if i < j {
      MissingStaysPinned(run, acts, i, j - 1, dir);
      assert StepAt(run, acts, j - 1);
      GoneStaysGone(run[j - 1], acts[j - 1], run[j], dir);
    }
  }
}
