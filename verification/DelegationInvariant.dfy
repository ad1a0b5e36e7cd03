/** Every action keeps the invariant of the cluster. */
module DelegationInvariant {
  import opened Common
  import opened Etcd
  import opened Deferred
  import opened Delegation

  // --- One step at a time -----------------------------------------------------

  lemma TokensSame(s: Cluster, s': Cluster)
    requires Tokens(s) && s'.live <= s.live && s'.granted == s.granted && s'.sessions == s.sessions
    requires s'.issued == s.issued && s'.minted == s.minted
    ensures Tokens(s')
  {
  }

  lemma MintedIsNew(s: Cluster, n: Node)
    requires Tokens(s) && n in s.sessions
    ensures NextToken(s, n) !in s.minted
  {
  }

  lemma MintTokens(s: Cluster, n: Node, ino: nat, excl: bool)
    requires Tokens(s) && n in s.sessions
    ensures Tokens(Mint(s, n, ino, excl))
  {
  }

  /** The same lock keys, with the same leases. */
  ghost predicate SameLocks(kvs: Kvs, kvs': Kvs) {
    forall k: Key :: k.LockKey? ==> (k in kvs' <==> k in kvs) && (k in kvs ==> kvs'[k].lease == kvs[k].lease)
  }

  lemma LocksSame(s: Cluster, s': Cluster)
    requires Locks(s) && SameLocks(s.kvs, s'.kvs) && s'.live >= s.live
    requires forall t :: t in s.minted ==> t in s'.minted && s'.minted[t] == s.minted[t]
    ensures Locks(s')
  {
    forall k | k in s'.kvs && k.LockKey? ensures LockOk(s', k) {
      assert LockOk(s, k);
    }
  }

  lemma AcquireLocks(s: Cluster, n: Node, ino: nat, excl: bool, lost: bool, s': Cluster)
    requires Tokens(s) && Locks(s) && AcquireStep(s, n, ino, excl, lost, s')
    ensures Locks(s')
  {
    MintedIsNew(s, n);
    var taken := LockKey(ino, excl, NextToken(s, n));
    forall k | k in s'.kvs && k.LockKey? ensures LockOk(s', k) {
      assert k != taken ==> LockOk(s, k);
    }
    forall j, k | j in s'.kvs && k in s'.kvs && j.LockKey? && k.LockKey? && j.ino == k.ino && j != k
      ensures !j.excl && !k.excl
    {
    }
  }

  lemma DeleteLocks(s: Cluster, s': Cluster)
    requires Locks(s) && s'.minted == s.minted
    requires forall k :: k in s'.kvs && k.LockKey? ==> k in s.kvs && s'.kvs[k] == s.kvs[k] && s.kvs[k].lease in s'.live
    ensures Locks(s')
  {
    forall k | k in s'.kvs && k.LockKey? ensures LockOk(s', k) {
      assert LockOk(s, k);
    }
  }

  lemma WrittenLocks(kvs: Kvs, ops: map<Key, Op>, rev: nat)
    requires forall k :: k in ops ==> !k.LockKey?
    ensures SameLocks(kvs, Written(kvs, ops, rev))
  {
  }

  lemma EntryStays(minted: map<Token, Claim>, minted': map<Token, Claim>, slot: Slot, e: Entry)
    requires EntryOk(minted, slot, e) && forall t :: t in minted ==> t in minted' && minted'[t] == minted[t]
    ensures EntryOk(minted', slot, e)
  {
  }

  lemma AtIsOk(s: Cluster, slot: Slot)
    requires Entries(s)
    ensures EntryOk(s.minted, slot, At(s, slot))
    ensures forall k :: k in s.owed ==> At(s, slot).holder != Some(k.holder) && k.holder !in At(s, slot).tried
  {
  }

  /** One entry replaced by one that names no token given up. */
  lemma EntryReplaced(s: Cluster, s': Cluster, slot: Slot, e: Entry)
    requires Entries(s) && s'.entries == s.entries[slot := e] && s'.owed == s.owed
    requires forall t :: t in s.minted ==> t in s'.minted && s'.minted[t] == s.minted[t]
    requires EntryOk(s'.minted, slot, e)
    requires forall k :: k in s.owed ==> e.holder != Some(k.holder) && k.holder !in e.tried
    ensures Entries(s')
  {
    forall x | x in s'.entries ensures EntryOk(s'.minted, x, s'.entries[x]) {
      if x != slot {
        EntryStays(s.minted, s'.minted, x, s.entries[x]);
      }
    }
  }

  /** Most replacements keep the entry's tokens. */
  lemma EntryUpdated(s: Cluster, s': Cluster, slot: Slot, e: Entry)
    requires Entries(s) && s'.entries == s.entries[slot := e] && s'.owed == s.owed && s'.minted == s.minted
    requires EntryOk(s'.minted, slot, e)
    requires (e.holder == At(s, slot).holder || e.holder == None) && e.tried <= At(s, slot).tried
    ensures Entries(s')
  {
    AtIsOk(s, slot);
    EntryReplaced(s, s', slot, e);
  }

  lemma AcquireEntries(s: Cluster, n: Node, ino: nat, excl: bool, e: Entry, s': Cluster)
    requires Tokens(s) && Entries(s) && n in s.sessions && At(s, Slot(n, ino)).holder.None?
    requires e == Fresh(NextToken(s, n), excl) || e == Attempted(At(s, Slot(n, ino)), NextToken(s, n))
    requires s'.entries == s.entries[Slot(n, ino) := e] && s'.owed == s.owed && s'.minted == Mint(s, n, ino, excl).minted
    ensures Entries(s')
  {
    MintedIsNew(s, n);
    AtIsOk(s, Slot(n, ino));
    EntryReplaced(s, s', Slot(n, ino), e);
  }

  lemma AdoptEntries(s: Cluster, n: Node, ino: nat, tok: Token, s': Cluster)
    requires Entries(s) && AdoptStep(s, n, ino, tok, s')
    ensures Entries(s')
  {
    AtIsOk(s, Slot(n, ino));
    EntryReplaced(s, s', Slot(n, ino), Fresh(tok, s.minted[tok].excl));
  }

  lemma DropEntries(s: Cluster, n: Node, ino: nat, s': Cluster)
    requires Entries(s) && DropStep(s, n, ino, s')
    ensures Entries(s')
  {
    var slot, e := Slot(n, ino), At(s, Slot(n, ino));
    AtIsOk(s, slot);
    EntryUpdated(s, s'.(owed := s.owed), slot, Idle);
    forall x | x in s'.entries ensures s'.entries[x].holder != e.holder && e.holder.value !in s'.entries[x].tried {
      if x != slot {
        AtIsOk(s, x);
      }
    }
  }

  lemma StartEntries(s: Cluster, n: Node, s': Cluster)
    requires Entries(s) && StartStep(s, n, s')
    ensures Entries(s')
  {
  }

  // Stamps.

  ghost predicate GensGrow(kvs: Kvs, kvs': Kvs) {
    forall n :: GenKey(n) in kvs && kvs[GenKey(n)].value.Generation? ==>
      GenKey(n) in kvs' && kvs'[GenKey(n)].value.Generation? && kvs[GenKey(n)].value.gen <= kvs'[GenKey(n)].value.gen
  }

  lemma StampGrows(kvs: Kvs, kvs': Kvs, v: Value)
    requires GensGrow(kvs, kvs') && StampOk(kvs, v)
    ensures StampOk(kvs', v)
  {
  }

  lemma EntryStampsGrow(kvs: Kvs, kvs': Kvs, e: Entry)
    requires GensGrow(kvs, kvs') && EntryStamps(kvs, e)
    ensures EntryStamps(kvs', e)
  {
  }

  /** Every stored value was stored before, or is stamped well. */
  lemma StampsStep(s: Cluster, s': Cluster, slot: Slot)
    requires Stamps(s) && GensGrow(s.kvs, s'.kvs)
    requires forall n :: GenKey(n) in s'.kvs ==> s'.kvs[GenKey(n)].value.Generation?
    requires forall n :: n in s'.guards ==> n in s.guards && s'.guards[n] == s.guards[n]
    requires forall k :: k in s'.kvs ==> (k in s.kvs && s'.kvs[k].value == s.kvs[k].value) || StampOk(s'.kvs, s'.kvs[k].value)
    requires forall x :: x in s'.entries && x != slot ==> x in s.entries && s'.entries[x] == s.entries[x]
    requires slot in s'.entries ==> EntryStamps(s'.kvs, s'.entries[slot])
    ensures Stamps(s')
  {
    forall k | k in s'.kvs ensures StampOk(s'.kvs, s'.kvs[k].value) {
      if k in s.kvs && s'.kvs[k].value == s.kvs[k].value {
        StampGrows(s.kvs, s'.kvs, s.kvs[k].value);
      }
    }
    forall x | x in s'.entries ensures EntryStamps(s'.kvs, s'.entries[x]) {
      if x != slot {
        EntryStampsGrow(s.kvs, s'.kvs, s.entries[x]);
      }
    }
  }

  lemma PlannedStamps(s: Cluster, n: Node, view: View, ops: map<Key, Op>, k: Key)
    requires Stamps(s) && n in s.guards && Stamped(n, s.guards[n], view, ops)
    requires forall j :: j in view ==> StampOk(s.kvs, view[j].value)
    requires k in ops && ops[k].Put?
    ensures StampOk(s.kvs, ops[k].value)
  {
  }

  // Files.

  lemma UniqueWriter(s: Cluster, a: Slot, b: Slot)
    requires Locks(s) && Entries(s) && Writer(s, a) && Holds(s, b) && a.ino == b.ino
    ensures a == b
  {
    AtIsOk(s, a);
    AtIsOk(s, b);
  }

  lemma HeldStays(kvs: Kvs, kvs': Kvs, slot: Slot, e: Entry, minted: map<Token, Claim>)
    requires SameFile(slot.ino, kvs, kvs') && EntryOk(minted, slot, e) && HeldOk(kvs, slot.ino, e)
    ensures HeldOk(kvs', slot.ino, e)
  {
    if e.view.Some? {
      SameFileAgrees(slot.ino, kvs, kvs', e.buf, e.view.value);
    }
    SameFileProgress(slot.ino, kvs, kvs', e.buf, e.lost, e.wedged);
  }

  /** What the acknowledged value of a key of a file must be, given the entry
      that may hold it. */
  ghost predicate TruthBy(kvs: Kvs, truth: map<Key, Value>, holds: bool, e: Entry, k: Key) {
    Current(truth, k) == Under(Stored'(kvs, k), if holds then e.buf.ops else map[], k)
  }

  lemma SameWriters(s: Cluster, s': Cluster, slot: Slot, e: Entry, x: Slot)
    requires s'.kvs == s.kvs && s'.entries == s.entries[slot := e] && x != slot
    ensures At(s', x) == At(s, x) && (Writer(s', x) <==> Writer(s, x))
  {
  }

  lemma SameNoWriter(s: Cluster, s': Cluster, slot: Slot, e: Entry, ino: nat)
    requires s'.kvs == s.kvs && s'.entries == s.entries[slot := e] && NoWriter(s', ino)
    requires slot.ino == ino ==> !Writer(s, slot)
    ensures NoWriter(s, ino)
  {
    forall x | x in s.entries && x.ino == ino ensures !Writer(s, x) {
      if x != slot {
        SameWriters(s, s', slot, e, x);
        assert x in s'.entries;
      }
    }
  }

  /** One entry replaced, the store as it was. */
  lemma FilesReplaced(s: Cluster, s': Cluster, slot: Slot, e: Entry)
    requires Locks(s) && Entries(s) && Files(s) && Locks(s') && Entries(s')
    requires s'.kvs == s.kvs && s'.entries == s.entries[slot := e]
    requires Holds(s', slot) ==> HeldOk(s.kvs, slot.ino, e)
    requires forall k :: FileKey(k) && !InFile(k, slot.ino) ==> Current(s'.truth, k) == Current(s.truth, k)
    requires Writer(s, slot) || Writer(s', slot) ==>
               forall k :: InFile(k, slot.ino) ==> TruthBy(s'.kvs, s'.truth, Writer(s', slot), e, k)
    requires !Writer(s, slot) && !Writer(s', slot) ==> forall k :: FileKey(k) ==> Current(s'.truth, k) == Current(s.truth, k)
    ensures Files(s')
  {
    forall k ensures TruthOk(s', k) {
      ReplacedTruth(s, s', slot, e, k);
    }
    forall x | x in s'.entries && Holds(s', x) ensures HeldOk(s'.kvs, x.ino, s'.entries[x]) {
      assert x != slot ==> Holds(s, x);
    }
  }

  lemma ReplacedTruth(s: Cluster, s': Cluster, slot: Slot, e: Entry, k: Key)
    requires Locks(s) && Entries(s) && Locks(s') && Entries(s') && TruthOk(s, k)
    requires s'.kvs == s.kvs && s'.entries == s.entries[slot := e]
    requires FileKey(k) && !InFile(k, slot.ino) ==> Current(s'.truth, k) == Current(s.truth, k)
    requires Writer(s, slot) || Writer(s', slot) ==>
               (InFile(k, slot.ino) ==> TruthBy(s'.kvs, s'.truth, Writer(s', slot), e, k))
    requires !Writer(s, slot) && !Writer(s', slot) && FileKey(k) ==> Current(s'.truth, k) == Current(s.truth, k)
    ensures TruthOk(s', k)
  {
    forall x | x in s'.entries && InFile(k, x.ino) && Writer(s', x)
      ensures Current(s'.truth, k) == Under(Stored'(s'.kvs, k), s'.entries[x].buf.ops, k)
    {
      if x != slot {
        SameWriters(s, s', slot, e, x);
        if x.ino == slot.ino && Writer(s', slot) {
          UniqueWriter(s', x, slot);
        } else if x.ino == slot.ino && Writer(s, slot) {
          UniqueWriter(s, x, slot);
        }
      }
    }
    if (k.ExtentKey? || k.InodeKey?) && NoWriter(s', k.ino) {
      if k.ino != slot.ino || !Writer(s, slot) {
        SameNoWriter(s, s', slot, e, k.ino);
      }
    }
  }

  ghost predicate SameFiles(kvs: Kvs, kvs': Kvs) {
    forall k :: FileKey(k) ==> (k in kvs' <==> k in kvs) && (k in kvs ==> kvs'[k] == kvs[k])
  }

  /** Entries or lock keys gone, the files as they were; what was buffered on
      `gone` is forgotten. */
  lemma FilesShrunk(s: Cluster, s': Cluster, gone: set<nat>)
    requires Entries(s) && Files(s) && SameFiles(s.kvs, s'.kvs)
    requires forall x :: x in s'.entries ==> x in s.entries && s'.entries[x] == s.entries[x]
    requires forall x :: x in s'.entries && Holds(s', x) ==> Holds(s, x)
    requires forall x :: x in s.entries && Writer(s, x) && x.ino !in gone ==> x in s'.entries && Writer(s', x)
    requires forall i :: i in gone ==> NoWriter(s', i)
    requires forall k :: FileKey(k) ==>
               Current(s'.truth, k) == if k.ino in gone then Stored'(s.kvs, k) else Current(s.truth, k)
    ensures Files(s')
  {
    forall x | x in s'.entries && Holds(s', x) ensures HeldOk(s'.kvs, x.ino, s'.entries[x]) {
      HeldStays(s.kvs, s'.kvs, x, s.entries[x], s.minted);
    }
    forall k ensures TruthOk(s', k) {
      assert TruthOk(s, k);
      if FileKey(k) {
        if k.ino !in gone && NoWriter(s', k.ino) {
          assert NoWriter(s, k.ino);
        }
      }
    }
  }

  /** Operations on one file written by the node that holds it. */
  lemma FilesWritten(s: Cluster, s': Cluster, slot: Slot, e: Entry, ops: map<Key, Op>, rev: nat)
    requires Locks(s) && Entries(s) && Files(s) && Writer(s, slot)
    requires forall k :: k in ops ==> InFile(k, slot.ino)
    requires s'.kvs == Written(s.kvs, ops, rev) && s'.entries == s.entries[slot := e]
    requires e.holder == At(s, slot).holder && e.excl == At(s, slot).excl
    requires HeldOk(s'.kvs, slot.ino, e)
    requires forall k :: FileKey(k) && !InFile(k, slot.ino) ==> Current(s'.truth, k) == Current(s.truth, k)
    requires forall k :: InFile(k, slot.ino) ==> TruthBy(s'.kvs, s'.truth, true, e, k)
    ensures Files(s')
  {
    WrittenLocks(s.kvs, ops, rev);
    forall x | x in s'.entries && Holds(s', x) ensures HeldOk(s'.kvs, x.ino, s'.entries[x]) {
      if x != slot {
        assert Holds(s, x);
        if x.ino == slot.ino {
          UniqueWriter(s, slot, x);
        } else {
          WrittenElsewhere(s.kvs, ops, rev, slot.ino, x.ino);
          HeldStays(s.kvs, s'.kvs, x, s.entries[x], s.minted);
        }
      }
    }
    forall k ensures TruthOk(s', k) {
      WrittenTruth(s, s', slot, e, ops, rev, k);
    }
  }

  lemma WrittenElsewhere(kvs: Kvs, ops: map<Key, Op>, rev: nat, ino: nat, other: nat)
    requires ino != other && forall k :: k in ops ==> InFile(k, ino)
    ensures SameFile(other, kvs, Written(kvs, ops, rev))
  {
  }

  lemma WrittenTruth(s: Cluster, s': Cluster, slot: Slot, e: Entry, ops: map<Key, Op>, rev: nat, k: Key)
    requires Locks(s) && Entries(s) && TruthOk(s, k) && Writer(s, slot)
    requires forall k :: k in ops ==> InFile(k, slot.ino)
    requires s'.kvs == Written(s.kvs, ops, rev) && s'.entries == s.entries[slot := e]
    requires e.holder == At(s, slot).holder && e.excl == At(s, slot).excl
    requires FileKey(k) && !InFile(k, slot.ino) ==> Current(s'.truth, k) == Current(s.truth, k)
    requires InFile(k, slot.ino) ==> TruthBy(s'.kvs, s'.truth, true, e, k)
    ensures TruthOk(s', k)
  {
    WrittenLocks(s.kvs, ops, rev);
    forall x | x in s'.entries && InFile(k, x.ino) && Writer(s', x)
      ensures Current(s'.truth, k) == Under(Stored'(s'.kvs, k), s'.entries[x].buf.ops, k)
    {
      if x != slot {
        assert Writer(s, x);
        if x.ino == slot.ino {
          UniqueWriter(s, slot, x);
        }
      }
    }
    if FileKey(k) && NoWriter(s', k.ino) {
      assert Writer(s', slot) && slot in s'.entries;
      assert k.ino != slot.ino;
      forall x | x in s.entries && x.ino == k.ino ensures !Writer(s, x) {
        assert x in s'.entries && Writer(s', x) == Writer(s, x);
      }
    }
  }

  // --- Every action -----------------------------------------------------------

  lemma TruthAt(s: Cluster, slot: Slot, k: Key)
    requires Files(s) && InFile(k, slot.ino) && Writer(s, slot)
    ensures TruthBy(s.kvs, s.truth, true, At(s, slot), k)
  {
    assert TruthOk(s, k);
  }

  // Grant and EndSession: only sessions change.

  lemma SessionsInv(s: Cluster, s': Cluster)
    requires Locks(s) && Entries(s) && Files(s) && Stamps(s)
    requires s' == s.(sessions := s'.sessions, live := s'.live, granted := s'.granted) && s.live <= s'.live
    ensures Locks(s') && Entries(s') && Files(s') && Stamps(s')
  {
    LocksSame(s, s');
    FilesShrunk(s, s', {});
  }

  lemma GrantInv(s: Cluster, n: Node, lease: nat, s': Cluster)
    requires Inv(s) && GrantStep(s, n, lease, s')
    ensures Inv(s')
  {
    SessionsInv(s, s');
  }

  lemma EndSessionInv(s: Cluster, n: Node, s': Cluster)
    requires Inv(s) && EndSessionStep(s, n, s')
    ensures Inv(s')
  {
    SessionsInv(s, s');
  }

  // Expire.

  lemma LeasedHasNoWriter(s: Cluster, lease: nat, s': Cluster, i: nat)
    requires Locks(s) && ExpireStep(s, lease, s') && i in Leased(s.kvs, lease)
    ensures NoWriter(s', i)
  {
    var k :| k in s.kvs && k.LockKey? && k.excl && s.kvs[k].lease == lease && k.ino == i;
    forall x | x in s'.entries && x.ino == i ensures !Writer(s', x) {
    }
  }

  lemma ExpireLocks(s: Cluster, lease: nat, s': Cluster)
    requires Locks(s) && ExpireStep(s, lease, s')
    ensures Locks(s')
  {
    forall k | k in s'.kvs && k.LockKey? ensures s.kvs[k].lease in s'.live {
      assert LockOk(s, k);
    }
    DeleteLocks(s, s');
  }

  lemma ExpireFiles(s: Cluster, lease: nat, s': Cluster)
    requires Locks(s) && Entries(s) && Files(s) && ExpireStep(s, lease, s')
    ensures Files(s')
  {
    ExpiredHaveNoWriter(s, lease, s');
    OthersKeepWriting(s, lease, s');
    FilesShrunk(s, s', Leased(s.kvs, lease));
  }

  lemma OthersKeepWriting(s: Cluster, lease: nat, s': Cluster)
    requires ExpireStep(s, lease, s')
    ensures forall x :: x in s.entries && Writer(s, x) && x.ino !in Leased(s.kvs, lease) ==> x in s'.entries && Writer(s', x)
  {
  }

  lemma ExpiredHaveNoWriter(s: Cluster, lease: nat, s': Cluster)
    requires Locks(s) && ExpireStep(s, lease, s')
    ensures forall i :: i in Leased(s.kvs, lease) ==> NoWriter(s', i)
  {
    forall i | i in Leased(s.kvs, lease) ensures NoWriter(s', i) {
      LeasedHasNoWriter(s, lease, s', i);
    }
  }

  lemma ExpireInv(s: Cluster, lease: nat, s': Cluster)
    requires Inv(s) && ExpireStep(s, lease, s')
    ensures Inv(s')
  {
    TokensSame(s, s');
    ExpireLocks(s, lease, s');
    ExpireFiles(s, lease, s');
    ExpireStamps(s, lease, s');
  }

  lemma ExpireStamps(s: Cluster, lease: nat, s': Cluster)
    requires Stamps(s) && ExpireStep(s, lease, s')
    ensures Stamps(s')
  {
    forall x | x in s'.entries ensures EntryStamps(s'.kvs, s'.entries[x]) {
      EntryStampsGrow(s.kvs, s'.kvs, s.entries[x]);
    }
  }

  // Acquire, AcquireFails, Adopt.

  lemma UnblockedHasNoWriter(s: Cluster, ino: nat)
    requires Unblocked(s.kvs, ino, true)
    ensures NoWriter(s, ino)
  {
  }

  /** The key appears first, held by no entry yet. */
  lemma KeyAppears(s: Cluster, n: Node, ino: nat, excl: bool, lost: bool, s': Cluster, s1: Cluster)
    requires Tokens(s) && Locks(s) && Entries(s) && Files(s)
    requires AcquireStep(s, n, ino, excl, lost, s') && s1 == s'.(entries := s.entries)
    ensures Entries(s1) && Files(s1)
    ensures excl ==> NoWriter(s1, ino)
  {
    MintedIsNew(s, n);
    forall x | x in s1.entries ensures EntryOk(s1.minted, x, s1.entries[x]) {
      EntryStays(s.minted, s1.minted, x, s.entries[x]);
    }
    forall x | x in s1.entries ensures Holds(s1, x) <==> Holds(s, x) {
      AtIsOk(s, x);
    }
    FilesShrunk(s, s1, {});
    if excl {
      UnblockedHasNoWriter(s, ino);
    }
  }

  lemma NoWriterTruth(s: Cluster, ino: nat, e: Entry, k: Key)
    requires Files(s) && NoWriter(s, ino) && InFile(k, ino) && e.buf == Empty
    ensures TruthBy(s.kvs, s.truth, true, e, k)
  {
    assert TruthOk(s, k);
  }

  lemma AcquireFiles(s: Cluster, n: Node, ino: nat, excl: bool, lost: bool, s': Cluster)
    requires Tokens(s) && Locks(s) && Entries(s) && Files(s) && Locks(s') && Entries(s')
    requires AcquireStep(s, n, ino, excl, lost, s')
    ensures Files(s')
  {
    var slot, s1 := Slot(n, ino), s'.(entries := s.entries);
    var e := if lost then Attempted(At(s, slot), NextToken(s, n)) else Fresh(NextToken(s, n), excl);
    KeyAppears(s, n, ino, excl, lost, s', s1);
    LocksSame(s', s1);
    if excl && !lost {
      forall k | InFile(k, ino) ensures TruthBy(s1.kvs, s1.truth, true, e, k) {
        NoWriterTruth(s1, ino, e, k);
      }
    }
    FilesReplaced(s1, s', slot, e);
  }

  lemma AcquireStamps(s: Cluster, n: Node, ino: nat, excl: bool, lost: bool, s': Cluster)
    requires Entries(s) && Stamps(s) && AcquireStep(s, n, ino, excl, lost, s')
    ensures Stamps(s')
  {
    AtIsOk(s, Slot(n, ino));
    StampsStep(s, s', Slot(n, ino));
  }

  lemma AcquireInv(s: Cluster, n: Node, ino: nat, excl: bool, lost: bool, s': Cluster)
    requires Inv(s) && AcquireStep(s, n, ino, excl, lost, s')
    ensures Inv(s')
  {
    var slot := Slot(n, ino);
    MintTokens(s, n, ino, excl);
    TokensSame(Mint(s, n, ino, excl), s');
    AcquireLocks(s, n, ino, excl, lost, s');
    AcquireEntries(s, n, ino, excl, s'.entries[slot], s');
    AcquireFiles(s, n, ino, excl, lost, s');
    AcquireStamps(s, n, ino, excl, lost, s');
  }

  lemma AcquireFailsFiles(s: Cluster, n: Node, ino: nat, excl: bool, s': Cluster)
    requires Locks(s) && Entries(s) && Files(s) && Locks(s') && Entries(s')
    requires AcquireFailsStep(s, n, ino, excl, s')
    ensures Files(s')
  {
    FilesReplaced(s, s', Slot(n, ino), Attempted(At(s, Slot(n, ino)), NextToken(s, n)));
  }

  lemma AcquireFailsInv(s: Cluster, n: Node, ino: nat, excl: bool, s': Cluster)
    requires Inv(s) && AcquireFailsStep(s, n, ino, excl, s')
    ensures Inv(s')
  {
    MintTokens(s, n, ino, excl);
    TokensSame(Mint(s, n, ino, excl), s');
    MintedIsNew(s, n);
    LocksSame(s, s');
    AcquireEntries(s, n, ino, excl, s'.entries[Slot(n, ino)], s');
    AcquireFailsFiles(s, n, ino, excl, s');
    AcquireFailsStamps(s, n, ino, excl, s');
  }

  lemma AcquireFailsStamps(s: Cluster, n: Node, ino: nat, excl: bool, s': Cluster)
    requires Entries(s) && Stamps(s) && AcquireFailsStep(s, n, ino, excl, s')
    ensures Stamps(s')
  {
    AtIsOk(s, Slot(n, ino));
    StampsStep(s, s', Slot(n, ino));
  }

  lemma AdoptedHadNoWriter(s: Cluster, n: Node, ino: nat, tok: Token, s': Cluster)
    requires Locks(s) && Entries(s) && AdoptStep(s, n, ino, tok, s') && s.minted[tok].excl
    ensures NoWriter(s, ino)
  {
    AtIsOk(s, Slot(n, ino));
    forall x | x in s.entries && x.ino == ino ensures !Writer(s, x) {
      AtIsOk(s, x);
    }
  }

  lemma AdoptFiles(s: Cluster, n: Node, ino: nat, tok: Token, s': Cluster)
    requires Locks(s) && Entries(s) && Files(s) && Locks(s') && Entries(s') && AdoptStep(s, n, ino, tok, s')
    ensures Files(s')
  {
    var e := Fresh(tok, s.minted[tok].excl);
    if e.excl {
      AdoptedHadNoWriter(s, n, ino, tok, s');
      forall k | InFile(k, ino) ensures TruthBy(s.kvs, s.truth, true, e, k) {
        NoWriterTruth(s, ino, e, k);
      }
    }
    FilesReplaced(s, s', Slot(n, ino), e);
  }

  lemma AdoptInv(s: Cluster, n: Node, ino: nat, tok: Token, s': Cluster)
    requires Inv(s) && AdoptStep(s, n, ino, tok, s')
    ensures Inv(s')
  {
    TokensSame(s, s');
    LocksSame(s, s');
    AdoptEntries(s, n, ino, tok, s');
    AdoptFiles(s, n, ino, tok, s');
    StampsStep(s, s', Slot(n, ino));
  }

  // Replacing one entry with the store as it was: GiveUp, Load, ForgetView,
  // BufferWrite, FindLanded, FindKeyLost, FindSessionLost, FindFenced, Drop.

  lemma EntryInv(s: Cluster, s': Cluster, slot: Slot, e: Entry)
    requires Inv(s) && s' == s.(entries := s.entries[slot := e], truth := s'.truth)
    requires Entries(s') && (Locks(s') ==> Files(s')) && EntryStamps(s.kvs, e)
    ensures Inv(s')
  {
    TokensSame(s, s');
    LocksSame(s, s');
    StampsStep(s, s', slot);
  }

  /** A replacement that keeps holder, mode and buffer. */
  lemma SameBufferFiles(s: Cluster, s': Cluster, slot: Slot, e: Entry)
    requires Locks(s) && Entries(s) && Files(s) && Locks(s') && Entries(s')
    requires s' == s.(entries := s.entries[slot := e])
    requires e.holder == At(s, slot).holder && e.excl == At(s, slot).excl && e.buf == At(s, slot).buf
    requires Holds(s, slot) ==> HeldOk(s.kvs, slot.ino, e)
    ensures Files(s')
  {
    if Writer(s, slot) {
      forall k | InFile(k, slot.ino) ensures TruthBy(s.kvs, s.truth, true, e, k) {
        TruthAt(s, slot, k);
      }
    }
    FilesReplaced(s, s', slot, e);
  }

  lemma GiveUpInv(s: Cluster, n: Node, ino: nat, s': Cluster)
    requires Inv(s) && GiveUpStep(s, n, ino, s')
    ensures Inv(s')
  {
    var slot := Slot(n, ino);
    var e := At(s, slot).(tried := {});
    AtIsOk(s, slot);
    EntryUpdated(s, s', slot, e);
    LocksSame(s, s');
    SameBufferFiles(s, s', slot, e);
    EntryInv(s, s', slot, e);
  }

  lemma LoadedAgrees(kvs: Kvs, ino: nat)
    ensures Agrees(ino, kvs, Empty, ViewOf(kvs, ino))
  {
  }

  lemma LoadInv(s: Cluster, n: Node, ino: nat, s': Cluster)
    requires Inv(s) && LoadStep(s, n, ino, s')
    ensures Inv(s')
  {
    var slot := Slot(n, ino);
    var e := At(s, slot).(view := Some(ViewOf(s.kvs, ino)));
    AtIsOk(s, slot);
    EntryUpdated(s, s', slot, e);
    LocksSame(s, s');
    LoadedAgrees(s.kvs, ino);
    SameBufferFiles(s, s', slot, e);
    EntryInv(s, s', slot, e);
  }

  lemma ForgetViewInv(s: Cluster, n: Node, ino: nat, s': Cluster)
    requires Inv(s) && ForgetViewStep(s, n, ino, s')
    ensures Inv(s')
  {
    var slot := Slot(n, ino);
    var e := At(s, slot).(view := None);
    AtIsOk(s, slot);
    EntryUpdated(s, s', slot, e);
    LocksSame(s, s');
    SameBufferFiles(s, s', slot, e);
    EntryInv(s, s', slot, e);
  }

  // BufferWrite.

  function Buffered(e: Entry, i: Intent): Entry
    requires e.view.Some?
  {
    e.(buf := Fold(e.buf, CmpsFor(e.view.value, i.checked), i.ops), view := Some(Replay(e.view.value, i.ops, 0)),
       wedged := e.lost)
  }

  lemma AckedTruth(s: Cluster, slot: Slot, i: Intent, k: Key)
    requires Files(s) && Writer(s, slot) && InFile(k, slot.ino) && At(s, slot).view.Some?
    ensures TruthBy(s.kvs, Acked(s.truth, i.ops), true, Buffered(At(s, slot), i), k)
  {
    TruthAt(s, slot, k);
  }

  lemma BufferedHeldOk(kvs: Kvs, ino: nat, e: Entry, i: Intent)
    requires HeldOk(kvs, ino, e) && e.view.Some? && WritePlan(ino, e.view.value, i)
    ensures HeldOk(kvs, ino, Buffered(e, i))
  {
    BufferKeeps(ino, kvs, e.buf, e.view.value, i);
    ToppedAfter(ino, e.buf.ops, e.view.value, i);
    BufferProgress(ino, kvs, e.buf, e.view.value, i, e.lost, e.wedged);
  }

  lemma AckedElsewhere(truth: map<Key, Value>, ops: map<Key, Op>, ino: nat)
    requires forall k :: k in ops ==> InFile(k, ino)
    ensures forall k :: !InFile(k, ino) ==> Current(Acked(truth, ops), k) == Current(truth, k)
  {
  }

  lemma HeldBufferWriteFiles(s: Cluster, n: Node, ino: nat, i: Intent, s': Cluster)
    requires Locks(s) && Entries(s) && Files(s) && Locks(s') && Entries(s') && BufferWriteStep(s, n, ino, i, s')
    requires Holds(s, Slot(n, ino))
    ensures Files(s')
  {
    var slot := Slot(n, ino);
    var e := Buffered(At(s, slot), i);
    BufferedHeldOk(s.kvs, ino, At(s, slot), i);
    forall k | InFile(k, ino) ensures TruthBy(s.kvs, s'.truth, true, e, k) {
      AckedTruth(s, slot, i, k);
    }
    AckedElsewhere(s.truth, i.ops, ino);
    FilesReplaced(s, s', slot, e);
  }

  lemma BufferWriteFiles(s: Cluster, n: Node, ino: nat, i: Intent, s': Cluster)
    requires Locks(s) && Entries(s) && Files(s) && Locks(s') && Entries(s') && BufferWriteStep(s, n, ino, i, s')
    ensures Files(s')
  {
    if Holds(s, Slot(n, ino)) {
      HeldBufferWriteFiles(s, n, ino, i, s');
    } else {
      FilesReplaced(s, s', Slot(n, ino), Buffered(At(s, Slot(n, ino)), i));
    }
  }

  lemma BufferedStamps(s: Cluster, n: Node, e: Entry, i: Intent)
    requires Stamps(s) && EntryStamps(s.kvs, e) && e.view.Some? && n in s.guards
    requires Stamped(n, s.guards[n], e.view.value, i.ops)
    ensures EntryStamps(s.kvs, Buffered(e, i))
  {
    forall k | k in i.ops && i.ops[k].Put? ensures StampOk(s.kvs, i.ops[k].value) {
      PlannedStamps(s, n, e.view.value, i.ops, k);
    }
  }

  lemma BufferWriteInv(s: Cluster, n: Node, ino: nat, i: Intent, s': Cluster)
    requires Inv(s) && BufferWriteStep(s, n, ino, i, s')
    ensures Inv(s')
  {
    var slot := Slot(n, ino);
    var e := Buffered(At(s, slot), i);
    AtIsOk(s, slot);
    EntryUpdated(s, s', slot, e);
    LocksSame(s, s');
    BufferWriteFiles(s, n, ino, i, s');
    BufferedStamps(s, n, At(s, slot), i);
    EntryInv(s, s', slot, e);
  }

  // FindLanded.

  lemma LandedHeldOk(kvs: Kvs, ino: nat, e: Entry)
    requires HeldOk(kvs, ino, e) && !Passes(kvs, e.buf.cmps) && LooksLanded(kvs, e.buf.ops)
    ensures Landed(kvs, e.buf.ops) && HeldOk(kvs, ino, Published(e, PublishedRevs(kvs, ino)))
  {
    OutcomeOf(kvs, e.buf, e.lost, e.wedged);
    if e.view.Some? {
      AdoptKeeps(ino, kvs, e.buf, e.view.value);
    }
  }

  lemma FindLandedFiles(s: Cluster, n: Node, ino: nat, s': Cluster)
    requires Locks(s) && Entries(s) && Files(s) && Locks(s') && Entries(s') && FindLandedStep(s, n, ino, s')
    ensures Files(s')
  {
    var slot := Slot(n, ino);
    var e := Published(At(s, slot), PublishedRevs(s.kvs, ino));
    if Holds(s, slot) {
      LandedHeldOk(s.kvs, ino, At(s, slot));
      AtIsOk(s, slot);
      forall k | InFile(k, ino) ensures TruthBy(s.kvs, s.truth, true, e, k) {
        TruthAt(s, slot, k);
      }
    }
    FilesReplaced(s, s', slot, e);
  }

  lemma FindLandedInv(s: Cluster, n: Node, ino: nat, s': Cluster)
    requires Inv(s) && FindLandedStep(s, n, ino, s')
    ensures Inv(s')
  {
    var slot := Slot(n, ino);
    var e := Published(At(s, slot), PublishedRevs(s.kvs, ino));
    AtIsOk(s, slot);
    EntryUpdated(s, s', slot, e);
    LocksSame(s, s');
    FindLandedFiles(s, n, ino, s');
    EntryInv(s, s', slot, e);
  }

  // FindKeyLost, FindSessionLost, FindFenced, Drop.

  /** A replacement with nothing buffered, the file as the store has it. */
  lemma ClearedFiles(s: Cluster, s': Cluster, slot: Slot, e: Entry)
    requires Locks(s) && Entries(s) && Files(s) && Locks(s') && Entries(s')
    requires s'.kvs == s.kvs && s'.entries == s.entries[slot := e]
    requires e.buf == Empty && e.view.None? && !e.lost && !e.wedged
    requires e.holder.None? || (e.holder == At(s, slot).holder && e.excl == At(s, slot).excl)
    requires forall k :: FileKey(k) ==>
               Current(s'.truth, k) == if Writer(s, slot) && k.ino == slot.ino then Stored'(s.kvs, k) else Current(s.truth, k)
    ensures Files(s')
  {
    FilesReplaced(s, s', slot, e);
  }

  lemma FindKeyLostInv(s: Cluster, n: Node, ino: nat, s': Cluster)
    requires Inv(s) && FindKeyLostStep(s, n, ino, s')
    ensures Inv(s')
  {
    var slot := Slot(n, ino);
    EntryUpdated(s, s', slot, Idle);
    LocksSame(s, s');
    ClearedFiles(s, s', slot, Idle);
    EntryInv(s, s', slot, Idle);
  }

  lemma FindSessionLostInv(s: Cluster, n: Node, ino: nat, s': Cluster)
    requires Inv(s) && FindSessionLostStep(s, n, ino, s')
    ensures Inv(s')
  {
    var slot := Slot(n, ino);
    EntryUpdated(s, s', slot, Idle);
    LocksSame(s, s');
    ClearedFiles(s, s', slot, Idle);
    EntryInv(s, s', slot, Idle);
  }

  lemma FindFencedInv(s: Cluster, n: Node, ino: nat, s': Cluster)
    requires Inv(s) && FindFencedStep(s, n, ino, s')
    ensures Inv(s')
  {
    var slot := Slot(n, ino);
    var e := At(s, slot).(buf := Empty, view := None, lost := false, wedged := false);
    AtIsOk(s, slot);
    EntryUpdated(s, s', slot, e);
    LocksSame(s, s');
    ClearedFiles(s, s', slot, e);
    EntryInv(s, s', slot, e);
  }

  /** A key given up with nothing buffered leaves the store's file as acknowledged. */
  lemma DropFiles(s: Cluster, n: Node, ino: nat, s': Cluster)
    requires Locks(s) && Entries(s) && Files(s) && Locks(s') && Entries(s') && DropStep(s, n, ino, s')
    ensures Files(s')
  {
    var slot := Slot(n, ino);
    forall k | FileKey(k)
      ensures Current(s'.truth, k) == if Writer(s, slot) && k.ino == slot.ino then Stored'(s.kvs, k) else Current(s.truth, k)
    {
      if Writer(s, slot) && k.ino == ino {
        TruthAt(s, slot, k);
      }
    }
    ClearedFiles(s, s', slot, Idle);
  }

  lemma DropInv(s: Cluster, n: Node, ino: nat, s': Cluster)
    requires Inv(s) && DropStep(s, n, ino, s')
    ensures Inv(s')
  {
    TokensSame(s, s');
    LocksSame(s, s');
    DropEntries(s, n, ino, s');
    DropFiles(s, n, ino, s');
    StampsStep(s, s', Slot(n, ino));
  }

  // Writing files: SyncWrite and Flush.

  lemma WrittenStamps(s: Cluster, s': Cluster, slot: Slot, e: Entry, ops: map<Key, Op>)
    requires Stamps(s) && s'.guards == s.guards && s'.entries == s.entries[slot := e]
    requires s'.kvs == Written(s.kvs, ops, s.rev + 1)
    requires forall k :: k in ops ==> FileKey(k) && (ops[k].Put? ==> StampOk(s.kvs, ops[k].value))
    requires EntryStamps(s.kvs, e)
    ensures Stamps(s')
  {
    assert GensGrow(s.kvs, s'.kvs);
    EntryStampsGrow(s.kvs, s'.kvs, e);
    forall k | k in ops && ops[k].Put? ensures StampOk(s'.kvs, ops[k].value) {
      StampGrows(s.kvs, s'.kvs, ops[k].value);
    }
    StampsStep(s, s', slot);
  }

  function Synced(e: Entry, i: Intent, rev: nat, lost: bool): Entry
    requires e.view.Some?
  {
    e.(view := if lost then None else Some(Replay(e.view.value, i.ops, rev)))
  }

  lemma SyncHeldOk(kvs: Kvs, rev: nat, ino: nat, e: Entry, i: Intent, lost: bool)
    requires HeldOk(kvs, ino, e) && e.view.Some? && e.buf == Empty && WritePlan(ino, e.view.value, i)
    ensures HeldOk(Written(kvs, i.ops, rev), ino, Synced(e, i, rev, lost))
  {
    SyncKeeps(ino, kvs, e.view.value, i, rev);
    UnbufferedProgress(kvs, e.lost, e.wedged);
  }

  lemma SyncedTruth(s: Cluster, slot: Slot, i: Intent, rev: nat, lost: bool, k: Key)
    requires Files(s) && Writer(s, slot) && InFile(k, slot.ino) && At(s, slot).view.Some? && At(s, slot).buf == Empty
    ensures TruthBy(Written(s.kvs, i.ops, rev), Acked(s.truth, i.ops), true, Synced(At(s, slot), i, rev, lost), k)
  {
    TruthAt(s, slot, k);
  }

  lemma SyncWriteFiles(s: Cluster, n: Node, ino: nat, i: Intent, lost: bool, s': Cluster)
    requires Locks(s) && Entries(s) && Files(s) && SyncWriteStep(s, n, ino, i, lost, s')
    ensures Files(s')
  {
    var slot := Slot(n, ino);
    var e := Synced(At(s, slot), i, s.rev + 1, lost);
    SyncHeldOk(s.kvs, s.rev + 1, ino, At(s, slot), i, lost);
    forall k | InFile(k, ino) ensures TruthBy(s'.kvs, s'.truth, true, e, k) {
      SyncedTruth(s, slot, i, s.rev + 1, lost, k);
    }
    AckedElsewhere(s.truth, i.ops, ino);
    FilesWritten(s, s', slot, e, i.ops, s.rev + 1);
  }

  lemma SyncWriteStamps(s: Cluster, n: Node, ino: nat, i: Intent, lost: bool, s': Cluster)
    requires Entries(s) && Stamps(s) && SyncWriteStep(s, n, ino, i, lost, s')
    ensures Stamps(s')
  {
    var slot := Slot(n, ino);
    BufferedStamps(s, n, At(s, slot), i);
    forall k | k in i.ops && i.ops[k].Put? ensures StampOk(s.kvs, i.ops[k].value) {
      PlannedStamps(s, n, At(s, slot).view.value, i.ops, k);
    }
    WrittenStamps(s, s', slot, Synced(At(s, slot), i, s.rev + 1, lost), i.ops);
  }

  lemma SyncWriteInv(s: Cluster, n: Node, ino: nat, i: Intent, lost: bool, s': Cluster)
    requires Inv(s) && SyncWriteStep(s, n, ino, i, lost, s')
    ensures Inv(s')
  {
    var slot := Slot(n, ino);
    TokensSame(s, s');
    WrittenLocks(s.kvs, i.ops, s.rev + 1);
    LocksSame(s, s');
    AtIsOk(s, slot);
    EntryUpdated(s, s', slot, Synced(At(s, slot), i, s.rev + 1, lost));
    SyncWriteFiles(s, n, ino, i, lost, s');
    SyncWriteStamps(s, n, ino, i, lost, s');
  }

  function Flushed(e: Entry, rev: nat, lost: bool): Entry {
    if lost then e.(lost := true) else Published(e, PutRevs(e.buf.ops, rev))
  }

  lemma UnbufferedHeldOk(kvs: Kvs, ino: nat, e: Entry)
    requires e.buf == Empty && !e.lost && !e.wedged && (e.view.Some? ==> Agrees(ino, kvs, Empty, e.view.value))
    ensures HeldOk(kvs, ino, e)
  {
  }

  lemma FlushedHeldOk(kvs: Kvs, rev: nat, ino: nat, e: Entry)
    requires e.view.Some? ==> Agrees(ino, kvs, e.buf, e.view.value)
    ensures HeldOk(Written(kvs, e.buf.ops, rev), ino, Published(e, PutRevs(e.buf.ops, rev)))
  {
    if e.view.Some? {
      FlushKeeps(ino, kvs, e.buf, e.view.value, rev);
    }
    UnbufferedHeldOk(Written(kvs, e.buf.ops, rev), ino, Published(e, PutRevs(e.buf.ops, rev)));
  }

  lemma WrittenLanded(kvs: Kvs, ops: map<Key, Op>, rev: nat)
    ensures Landed(Written(kvs, ops, rev), ops)
  {
  }

  lemma LostHeldOk(kvs: Kvs, rev: nat, ino: nat, e: Entry)
    requires HeldOk(kvs, ino, e) && e.buf != Empty && Passes(kvs, e.buf.cmps)
    ensures HeldOk(Written(kvs, e.buf.ops, rev), ino, e.(lost := true))
  {
    if e.view.Some? {
      LostFlushKeeps(ino, kvs, e.buf, e.view.value, rev);
    }
    WrittenLanded(kvs, e.buf.ops, rev);
    LostProgress(kvs, Written(kvs, e.buf.ops, rev), e.buf, e.lost, e.wedged);
  }

  lemma FlushFiles(s: Cluster, n: Node, ino: nat, lost: bool, s': Cluster)
    requires Locks(s) && Entries(s) && Files(s) && FlushStep(s, n, ino, lost, s')
    ensures Files(s')
  {
    var slot := Slot(n, ino);
    var was := At(s, slot);
    AtIsOk(s, slot);
    if lost {
      LostHeldOk(s.kvs, s.rev + 1, ino, was);
    } else {
      FlushedHeldOk(s.kvs, s.rev + 1, ino, was);
    }
    forall k | InFile(k, ino) ensures TruthBy(s'.kvs, s'.truth, true, Flushed(was, s.rev + 1, lost), k) {
      TruthAt(s, slot, k);
    }
    FilesWritten(s, s', slot, Flushed(was, s.rev + 1, lost), was.buf.ops, s.rev + 1);
  }

  lemma FlushLocks(s: Cluster, n: Node, ino: nat, lost: bool, s': Cluster)
    requires Locks(s) && Entries(s) && FlushStep(s, n, ino, lost, s')
    ensures Locks(s')
  {
    AtIsOk(s, Slot(n, ino));
    WrittenLocks(s.kvs, At(s, Slot(n, ino)).buf.ops, s.rev + 1);
    LocksSame(s, s');
  }

  lemma FlushInv(s: Cluster, n: Node, ino: nat, lost: bool, s': Cluster)
    requires Inv(s) && FlushStep(s, n, ino, lost, s')
    ensures Inv(s')
  {
    var slot := Slot(n, ino);
    var was := At(s, slot);
    TokensSame(s, s');
    AtIsOk(s, slot);
    FlushLocks(s, n, ino, lost, s');
    EntryUpdated(s, s', slot, Flushed(was, s.rev + 1, lost));
    FlushFiles(s, n, ino, lost, s');
    WrittenStamps(s, s', slot, Flushed(was, s.rev + 1, lost), was.buf.ops);
  }

  // Release, Bump, Start.

  lemma ReleaseFiles(s: Cluster, n: Node, keys: set<Key>, s': Cluster)
    requires Entries(s) && Files(s) && ReleaseStep(s, n, keys, s')
    ensures Files(s')
  {
    forall x | x in s.entries ensures Holds(s', x) <==> Holds(s, x) {
      AtIsOk(s, x);
    }
    FilesShrunk(s, s', {});
  }

  lemma ReleaseInv(s: Cluster, n: Node, keys: set<Key>, s': Cluster)
    requires Inv(s) && ReleaseStep(s, n, keys, s')
    ensures Inv(s')
  {
    TokensSame(s, s');
    forall k | k in s'.kvs && k.LockKey? ensures s.kvs[k].lease in s'.live {
      assert LockOk(s, k);
    }
    DeleteLocks(s, s');
    ReleaseFiles(s, n, keys, s');
    ReleaseStamps(s, n, keys, s');
  }

  lemma ReleaseStamps(s: Cluster, n: Node, keys: set<Key>, s': Cluster)
    requires Entries(s) && Stamps(s) && ReleaseStep(s, n, keys, s')
    ensures Stamps(s')
  {
    forall x | x in s'.entries ensures EntryStamps(s'.kvs, s'.entries[x]) {
      EntryStampsGrow(s.kvs, s'.kvs, s.entries[x]);
    }
  }

  lemma SetGenSame(kvs: Kvs, n: Node, gen: nat, rev: nat)
    requires gen >= GenOf(kvs, n)
    ensures SameLocks(kvs, SetGen(kvs, n, gen, rev)) && SameFiles(kvs, SetGen(kvs, n, gen, rev))
    ensures GensGrow(kvs, SetGen(kvs, n, gen, rev))
  {
  }

  lemma BumpInv(s: Cluster, n: Node, s': Cluster)
    requires Inv(s) && BumpStep(s, n, s')
    ensures Inv(s')
  {
    SetGenSame(s.kvs, n, GenOf(s.kvs, n) + 1, s.rev + 1);
    TokensSame(s, s');
    LocksSame(s, s');
    FilesShrunk(s, s', {});
    BumpStamps(s, n, s');
  }

  lemma BumpStamps(s: Cluster, n: Node, s': Cluster)
    requires Stamps(s) && BumpStep(s, n, s')
    ensures Stamps(s')
  {
    SetGenSame(s.kvs, n, GenOf(s.kvs, n) + 1, s.rev + 1);
    forall x | x in s'.entries ensures EntryStamps(s'.kvs, s'.entries[x]) {
      EntryStampsGrow(s.kvs, s'.kvs, s.entries[x]);
    }
    forall k | k in s'.kvs ensures StampOk(s'.kvs, s'.kvs[k].value) {
      if k != GenKey(n) {
        StampGrows(s.kvs, s'.kvs, s.kvs[k].value);
      }
    }
  }

  lemma StartTokens(s: Cluster, n: Node, s': Cluster)
    requires Tokens(s) && StartStep(s, n, s')
    ensures Tokens(s')
  {
  }

  lemma StartFiles(s: Cluster, n: Node, s': Cluster)
    requires Locks(s) && Entries(s) && Files(s) && StartStep(s, n, s') && SameFiles(s.kvs, s'.kvs) && SameLocks(s.kvs, s'.kvs)
    ensures Files(s')
  {
    forall i | i in Held(s, n) ensures NoWriter(s', i) {
      StartedHasNoWriter(s, n, s', i);
    }
    FilesShrunk(s, s', Held(s, n));
  }

  lemma StartedHasNoWriter(s: Cluster, n: Node, s': Cluster, i: nat)
    requires Locks(s) && Entries(s) && StartStep(s, n, s') && SameLocks(s.kvs, s'.kvs) && i in Held(s, n)
    ensures NoWriter(s', i)
  {
    var w :| w in s.entries && w.node == n && Writer(s, w) && w.ino == i;
    forall x | x in s'.entries && x.ino == i ensures !Writer(s', x) {
      if Writer(s, x) {
        UniqueWriter(s, w, x);
      }
    }
  }

  lemma StartStamps(s: Cluster, n: Node, s': Cluster)
    requires Stamps(s) && StartStep(s, n, s') && GensGrow(s.kvs, s'.kvs)
    ensures Stamps(s')
  {
    forall x | x in s'.entries ensures EntryStamps(s'.kvs, s'.entries[x]) {
      EntryStampsGrow(s.kvs, s'.kvs, s.entries[x]);
    }
    forall k | k in s'.kvs ensures StampOk(s'.kvs, s'.kvs[k].value) {
      if k != GenKey(n) {
        StampGrows(s.kvs, s'.kvs, s.kvs[k].value);
      }
    }
  }

  lemma StartInv(s: Cluster, n: Node, s': Cluster)
    requires Inv(s) && StartStep(s, n, s')
    ensures Inv(s')
  {
    SetGenSame(s.kvs, n, GenOf(s.kvs, n), s.rev + 1);
    StartTokens(s, n, s');
    LocksSame(s, s');
    StartEntries(s, n, s');
    StartFiles(s, n, s');
    StartStamps(s, n, s');
  }

  predicate OnLocks(a: Action) {
    a.Grant? || a.EndSession? || a.Expire? || a.Acquire? || a.AcquireFails? || a.Adopt? || a.GiveUp?
  }

  predicate OnStore(a: Action) {
    a.SyncWrite? || a.Flush? || a.Release? || a.Bump? || a.Start?
  }

  lemma LockStepInv(s: Cluster, a: Action, s': Cluster)
    requires Inv(s) && Next(s, a, s') && OnLocks(a)
    ensures Inv(s')
  {
    match a
    case Grant(n, lease) => GrantInv(s, n, lease, s');
    case EndSession(n) => EndSessionInv(s, n, s');
    case Expire(lease) => ExpireInv(s, lease, s');
    case Acquire(n, ino, excl, lost) => AcquireInv(s, n, ino, excl, lost, s');
    case AcquireFails(n, ino, excl) => AcquireFailsInv(s, n, ino, excl, s');
    case Adopt(n, ino, tok) => AdoptInv(s, n, ino, tok, s');
    case GiveUp(n, ino) => GiveUpInv(s, n, ino, s');
  }

  lemma StoreStepInv(s: Cluster, a: Action, s': Cluster)
    requires Inv(s) && Next(s, a, s') && (a.SyncWrite? || a.Flush? || a.Release?)
    ensures Inv(s')
  {
    match a
    case SyncWrite(n, ino, i, lost) => SyncWriteInv(s, n, ino, i, lost, s');
    case Flush(n, ino, lost) => FlushInv(s, n, ino, lost, s');
    case Release(n, keys) => ReleaseInv(s, n, keys, s');
  }

  lemma FenceStepInv(s: Cluster, a: Action, s': Cluster)
    requires Inv(s) && Next(s, a, s') && (a.Bump? || a.Start?)
    ensures Inv(s')
  {
    match a
    case Bump(n) => BumpInv(s, n, s');
    case Start(n) => StartInv(s, n, s');
  }

  lemma EntryStepInv(s: Cluster, a: Action, s': Cluster)
    requires Inv(s) && Next(s, a, s') && !OnLocks(a) && !OnStore(a)
    ensures Inv(s')
  {
    match a
    case Load(n, ino) => LoadInv(s, n, ino, s');
    case ForgetView(n, ino) => ForgetViewInv(s, n, ino, s');
    case BufferWrite(n, ino, i) => BufferWriteInv(s, n, ino, i, s');
    case FindLanded(n, ino) => FindLandedInv(s, n, ino, s');
    case FindKeyLost(n, ino) => FindKeyLostInv(s, n, ino, s');
    case FindSessionLost(n, ino) => FindSessionLostInv(s, n, ino, s');
    case FindFenced(n, ino) => FindFencedInv(s, n, ino, s');
    case Drop(n, ino) => DropInv(s, n, ino, s');
  }

  /** Every action keeps the invariant. */
  lemma StepInv(s: Cluster, a: Action, s': Cluster)
    requires Inv(s) && Next(s, a, s')
    ensures Inv(s')
  {
    if OnLocks(a) {
      LockStepInv(s, a, s');
    } else if a.Bump? || a.Start? {
      FenceStepInv(s, a, s');
    } else if OnStore(a) {
      StoreStepInv(s, a, s');
    } else {
      EntryStepInv(s, a, s');
    }
  }

  /** A cluster nobody has touched yet, over whatever files the store holds. */
  ghost predicate Init(s: Cluster) {
    && (forall k :: k in s.kvs ==> !k.LockKey? && StampOk(s.kvs, s.kvs[k].value))
    && (forall n :: GenKey(n) in s.kvs ==> s.kvs[GenKey(n)].value.Generation?)
    && s.live == {} && s.granted == {} && s.sessions == map[] && s.guards == map[]
    && s.entries == map[] && s.owed == {} && s.minted == map[]
    && (forall k :: FileKey(k) ==> Current(s.truth, k) == Stored'(s.kvs, k))
  }

  ghost predicate IsRun(run: seq<Cluster>, acts: seq<Action>) {
    && |run| == |acts| + 1 && Init(run[0])
    && forall i :: 0 <= i < |acts| ==> StepAt(run, acts, i)
  }

  ghost predicate StepAt(run: seq<Cluster>, acts: seq<Action>, i: nat)
    requires i < |acts| && i + 1 < |run|
  {
    Next(run[i], acts[i], run[i + 1])
  }

  lemma InitInv(s: Cluster)
    requires Init(s)
    ensures Inv(s)
  {
  }

  lemma {:induction false} RunInv(run: seq<Cluster>, acts: seq<Action>, t: nat)
    requires IsRun(run, acts) && t < |run|
    ensures Inv(run[t])
  {
    if t == 0 {
      InitInv(run[0]);
    } else {
      RunInv(run, acts, t - 1);
      assert StepAt(run, acts, t - 1);
      StepInv(run[t - 1], acts[t - 1], run[t]);
    }
  }
}
