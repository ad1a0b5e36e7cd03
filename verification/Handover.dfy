/** What holds over whole runs of the cluster: who may publish and when, what a
    handover keeps, and what a fence stops. */
module Handover {
  import opened Common
  import opened Etcd
  import opened Deferred
  import opened Delegation
  import opened DelegationInvariant

  // --- A flush commits under one unbroken hold --------------------------------

  lemma StoreAddsNoLock(s: Cluster, a: Action, s': Cluster, key: Key)
    requires Entries(s) && Next(s, a, s') && OnStore(a) && key.LockKey? && key in s'.kvs
    ensures key in s.kvs
  {
    if a.Flush? {
      AtIsOk(s, Slot(a.n, a.ino));
    }
  }

  lemma OthersAddNoLock(s: Cluster, a: Action, s': Cluster, key: Key)
    requires Next(s, a, s') && !OnStore(a) && !a.Acquire? && key.LockKey? && key in s'.kvs
    ensures key in s.kvs
  {
  }

  /** Only an acquisition of that token makes a lock key appear. */
  lemma AppearsByAcquire(s: Cluster, a: Action, s': Cluster, key: Key)
    requires Entries(s) && Next(s, a, s') && key.LockKey? && key !in s.kvs && key in s'.kvs
    ensures a.Acquire? && a.n in s.sessions && key == LockKey(a.ino, a.excl, NextToken(s, a.n))
  {
    if OnStore(a) {
      StoreAddsNoLock(s, a, s', key);
    } else if !a.Acquire? {
      OthersAddNoLock(s, a, s', key);
    }
  }

  lemma AppearsAt(run: seq<Cluster>, acts: seq<Action>, a: nat, key: Key)
    requires IsRun(run, acts) && a < |acts| && key.LockKey? && key !in run[a].kvs && key in run[a + 1].kvs
    ensures acts[a].Acquire? && acts[a].n in run[a].sessions
    ensures key == LockKey(acts[a].ino, acts[a].excl, NextToken(run[a], acts[a].n))
  {
    RunInv(run, acts, a);
    assert StepAt(run, acts, a);
    AppearsByAcquire(run[a], acts[a], run[a + 1], key);
  }

  /** A key in the store has been there since the acquisition that minted it. */
  lemma {:induction false} KeyBorn(run: seq<Cluster>, acts: seq<Action>, t: nat, key: Key) returns (a: nat)
    requires IsRun(run, acts) && t < |run| && key.LockKey? && key in run[t].kvs
    ensures a < t && acts[a].Acquire? && acts[a].n in run[a].sessions
    ensures key == LockKey(acts[a].ino, acts[a].excl, NextToken(run[a], acts[a].n))
    ensures forall i :: a < i <= t ==> key in run[i].kvs
  {
    assert t > 0;
    if key in run[t - 1].kvs {
      a := KeyBorn(run, acts, t - 1, key);
    } else {
      AppearsAt(run, acts, t - 1, key);
      a := t - 1;
    }
  }

  /** The action commits extents or a size of this file. */
  predicate Publishes(a: Action, ino: nat) {
    (a.Flush? || a.SyncWrite?) && a.ino == ino
  }

  ghost predicate OnlyLock(kvs: Kvs, key: Key)
    requires key.LockKey?
  {
    key in kvs && forall k :: k in kvs && k.LockKey? && k.ino == key.ino ==> k == key
  }

  lemma ExclusiveIsAlone(s: Cluster, key: Key)
    requires Locks(s) && key.LockKey? && key.excl && key in s.kvs
    ensures OnlyLock(s.kvs, key)
  {
  }

  lemma PublishesUnder(s: Cluster, a: Action, s': Cluster, key: Key)
    requires Locks(s) && Entries(s) && Next(s, a, s') && key.LockKey? && OnlyLock(s.kvs, key) && Publishes(a, key.ino)
    ensures key.holder in s.minted && s.minted[key.holder].node == a.n
  {
    AtIsOk(s, Slot(a.n, a.ino));
  }

  lemma MintedStays(s: Cluster, a: Action, s': Cluster, t: Token)
    requires Tokens(s) && Next(s, a, s') && t in s.minted
    ensures t in s'.minted && s'.minted[t] == s.minted[t]
  {
    match a
    case Acquire(n, ino, excl, lost) => MintedIsNew(s, n);
    case AcquireFails(n, ino, excl) => MintedIsNew(s, n);
    case _ =>
  }

  lemma MintedAt(run: seq<Cluster>, acts: seq<Action>, i: nat, tok: Token)
    requires IsRun(run, acts) && i < |acts| && tok in run[i].minted
    ensures tok in run[i + 1].minted && run[i + 1].minted[tok] == run[i].minted[tok]
  {
    RunInv(run, acts, i);
    assert StepAt(run, acts, i);
    MintedStays(run[i], acts[i], run[i + 1], tok);
  }

  lemma {:induction false} MintedForGood(run: seq<Cluster>, acts: seq<Action>, i: nat, t: nat, tok: Token)
    requires IsRun(run, acts) && i <= t < |run| && tok in run[i].minted
    ensures tok in run[t].minted && run[t].minted[tok] == run[i].minted[tok]
  {
    if i < t {
      MintedForGood(run, acts, i, t - 1, tok);
      MintedAt(run, acts, t - 1, tok);
    }
  }

  /** Whenever a flush commits, the exact token it was buffered under has been
      in the store since the node acquired it. In between no other lock on the
      file existed, nobody else acquired one, and nobody else published it. */
  lemma FlushUnderOneHold(run: seq<Cluster>, acts: seq<Action>, t: nat) returns (a: nat)
    requires IsRun(run, acts) && t < |acts| && acts[t].Flush?
    ensures At(run[t], Slot(acts[t].n, acts[t].ino)).holder.Some?
    ensures a < t && acts[a].Acquire? && acts[a].n == acts[t].n && acts[a].ino == acts[t].ino && acts[a].excl
    ensures acts[a].n in run[a].sessions
            && NextToken(run[a], acts[a].n) == At(run[t], Slot(acts[t].n, acts[t].ino)).holder.value
    ensures forall i :: a < i <= t ==>
              OnlyLock(run[i].kvs, LockKey(acts[t].ino, true, At(run[t], Slot(acts[t].n, acts[t].ino)).holder.value))
    ensures forall j :: a < j < t ==> !(acts[j].Acquire? && acts[j].ino == acts[t].ino)
    ensures forall j :: a < j < t && Publishes(acts[j], acts[t].ino) ==> acts[j].n == acts[t].n
  {
    var n, ino := acts[t].n, acts[t].ino;
    var key := FlushKey(run, acts, t);
    a := KeyBorn(run, acts, t, key);
    AcquireMints(run, acts, a);
    MintedForGood(run, acts, a + 1, t, key.holder);
    forall i | a < i <= t ensures OnlyLock(run[i].kvs, key) {
      RunInv(run, acts, i);
      ExclusiveIsAlone(run[i], key);
    }
    forall j | a < j < t
      ensures !(acts[j].Acquire? && acts[j].ino == ino) && (Publishes(acts[j], ino) ==> acts[j].n == n)
    {
      assert OnlyLock(run[j].kvs, key);
      MintedForGood(run, acts, a + 1, j, key.holder);
      NobodyElse(run, acts, j, key);
    }
  }

  /** The key a flush compares. */
  lemma FlushKey(run: seq<Cluster>, acts: seq<Action>, t: nat) returns (key: Key)
    requires IsRun(run, acts) && t < |acts| && acts[t].Flush?
    ensures At(run[t], Slot(acts[t].n, acts[t].ino)).holder.Some?
    ensures key == LockKey(acts[t].ino, true, At(run[t], Slot(acts[t].n, acts[t].ino)).holder.value) && key in run[t].kvs
    ensures key.holder in run[t].minted && run[t].minted[key.holder].node == acts[t].n
  {
    var slot := Slot(acts[t].n, acts[t].ino);
    RunInv(run, acts, t);
    assert StepAt(run, acts, t);
    AtIsOk(run[t], slot);
    key := HeldKey(slot, At(run[t], slot));
  }

  lemma AcquireMints(run: seq<Cluster>, acts: seq<Action>, a: nat)
    requires IsRun(run, acts) && a < |acts| && acts[a].Acquire?
    ensures acts[a].n in run[a].sessions && NextToken(run[a], acts[a].n) in run[a + 1].minted
    ensures run[a + 1].minted[NextToken(run[a], acts[a].n)] == Claim(acts[a].n, acts[a].ino, acts[a].excl)
  {
    assert StepAt(run, acts, a);
  }

  lemma NobodyElse(run: seq<Cluster>, acts: seq<Action>, j: nat, key: Key)
    requires IsRun(run, acts) && j < |acts| && key.LockKey? && key.excl && OnlyLock(run[j].kvs, key)
    requires key.holder in run[j].minted
    ensures !(acts[j].Acquire? && acts[j].ino == key.ino)
    ensures Publishes(acts[j], key.ino) ==> acts[j].n == run[j].minted[key.holder].node
  {
    RunInv(run, acts, j);
    assert StepAt(run, acts, j);
    if Publishes(acts[j], key.ino) {
      PublishesUnder(run[j], acts[j], run[j + 1], key);
    }
  }

  // --- A handover loses no acknowledged write ---------------------------------

  /** The action adds acknowledged operations to a file. */
  predicate Writes(a: Action, ino: nat) {
    (a.BufferWrite? || a.SyncWrite?) && a.ino == ino
  }

  /** The action adds an acknowledged operation on that very key. */
  predicate Rewrites(s: Cluster, a: Action, k: Key) {
    (a.BufferWrite? || a.SyncWrite?) && k in a.i.ops && Holds(s, Slot(a.n, a.ino))
  }

  /** The file's writer is fenced, starts over or loses the key, so what it
      buffered is gone. */
  predicate EndsHold(s: Cluster, a: Action, ino: nat) {
    match a
    case Expire(lease) => ino in Leased(s.kvs, lease)
    case FindSessionLost(n, i) => i == ino && Writer(s, Slot(n, i))
    case FindFenced(n, i) => i == ino && Writer(s, Slot(n, i))
    case Start(n) => ino in Held(s, n)
    case _ => false
  }

  /** The file's writer has an operation on the key whose effect the store does
      not show. */
  ghost predicate Unsaved(s: Cluster, k: Key)
    requires FileKey(k)
  {
    exists slot :: slot in s.entries && slot.ino == k.ino && Writer(s, slot)
                   && Under(Stored'(s.kvs, k), s.entries[slot].buf.ops, k) != Stored'(s.kvs, k)
  }

  /** The action loses what was acknowledged for the key. */
  ghost predicate Loses(s: Cluster, a: Action, k: Key)
    requires FileKey(k)
  {
    EndsHold(s, a, k.ino) && Unsaved(s, k)
  }

  lemma UnsavedIff(s: Cluster, k: Key)
    requires Files(s) && FileKey(k)
    ensures Unsaved(s, k) <==> Current(s.truth, k) != Stored'(s.kvs, k)
  {
    assert TruthOk(s, k);
    if !NoWriter(s, k.ino) {
      var slot :| slot in s.entries && slot.ino == k.ino && Writer(s, slot);
      assert InFile(k, slot.ino);
    }
  }

  predicate MovesTruth(a: Action) {
    a.BufferWrite? || a.SyncWrite? || a.Expire? || a.FindSessionLost? || a.FindFenced? || a.Start?
  }

  lemma OthersKeepTruth(s: Cluster, a: Action, s': Cluster)
    requires Next(s, a, s') && !MovesTruth(a)
    ensures s'.truth == s.truth
  {
  }

  lemma EndedIsStored(s: Cluster, a: Action, s': Cluster, k: Key)
    requires Next(s, a, s') && FileKey(k) && EndsHold(s, a, k.ino)
    ensures Current(s'.truth, k) == Stored'(s.kvs, k)
  {
  }

  lemma TruthKept(s: Cluster, a: Action, s': Cluster, k: Key)
    requires Next(s, a, s') && FileKey(k) && !EndsHold(s, a, k.ino) && !Rewrites(s, a, k)
    ensures Current(s'.truth, k) == Current(s.truth, k)
  {
    if !MovesTruth(a) {
      OthersKeepTruth(s, a, s');
    }
  }

  /** Short of a new write to it, an action keeps what was acknowledged for a key
      exactly when it does not end the hold of a writer that has yet to publish
      it. */
  lemma TruthKeptIff(s: Cluster, a: Action, s': Cluster, k: Key)
    requires Files(s) && Next(s, a, s') && FileKey(k) && !Rewrites(s, a, k)
    ensures Current(s'.truth, k) == Current(s.truth, k) <==> !Loses(s, a, k)
  {
    UnsavedIff(s, k);
    if EndsHold(s, a, k.ino) {
      EndedIsStored(s, a, s', k);
    } else {
      TruthKept(s, a, s', k);
    }
  }

  /** A write under a held key is acknowledged. */
  lemma TruthWritten(s: Cluster, a: Action, s': Cluster, k: Key)
    requires Next(s, a, s') && FileKey(k) && Writes(a, k.ino) && Holds(s, Slot(a.n, a.ino))
    ensures Current(s'.truth, k) == Under(Current(s.truth, k), a.i.ops, k)
  {
  }

  /** A released key leaves the store with the file as acknowledged. */
  lemma ReleasedIsPublished(run: seq<Cluster>, acts: seq<Action>, t: nat, key: Key, k: Key)
    requires IsRun(run, acts) && t < |acts| && acts[t].Release? && key in acts[t].keys && key in run[t].kvs
    requires key.LockKey? && key.excl && InFile(k, key.ino)
    ensures Stored'(run[t].kvs, k) == Current(run[t].truth, k)
    ensures Stored'(run[t + 1].kvs, k) == Current(run[t + 1].truth, k)
  {
    RunInv(run, acts, t);
    assert StepAt(run, acts, t);
    GivenUpHasNoWriter(run[t], key);
    assert TruthOk(run[t], k);
  }

  lemma GivenUpHasNoWriter(s: Cluster, key: Key)
    requires Locks(s) && Entries(s) && key in s.owed && key in s.kvs && key.LockKey? && key.excl
    ensures NoWriter(s, key.ino)
  {
    ExclusiveIsAlone(s, key);
    forall x | x in s.entries && x.ino == key.ino ensures !Writer(s, x) {
      AtIsOk(s, x);
    }
  }

  /** Whoever loads a file under a key that is in the store reads what was
      acknowledged. */
  lemma LoadReadsTruth(run: seq<Cluster>, acts: seq<Action>, t: nat, k: Key)
    requires IsRun(run, acts) && t < |acts| && acts[t].Load? && Holds(run[t], Slot(acts[t].n, acts[t].ino))
    requires InFile(k, acts[t].ino)
    ensures At(run[t + 1], Slot(acts[t].n, acts[t].ino)).view.Some?
    ensures Current(Seens(At(run[t + 1], Slot(acts[t].n, acts[t].ino)).view.value), k) == Current(run[t].truth, k)
  {
    RunInv(run, acts, t);
    assert StepAt(run, acts, t);
    LoadedTruth(run[t], Slot(acts[t].n, acts[t].ino), k);
  }

  lemma LoadedTruth(s: Cluster, slot: Slot, k: Key)
    requires Locks(s) && Entries(s) && Files(s) && Holds(s, slot) && At(s, slot).buf == Empty && InFile(k, slot.ino)
    ensures Current(s.truth, k) == Stored'(s.kvs, k)
  {
    assert TruthOk(s, k);
    if !Writer(s, slot) {
      forall x | x in s.entries && x.ino == slot.ino ensures !Writer(s, x) {
        if Writer(s, x) {
          UniqueWriter(s, x, slot);
        }
      }
    }
  }

  lemma TruthStays(run: seq<Cluster>, acts: seq<Action>, t: nat, k: Key)
    requires IsRun(run, acts) && t < |acts| && FileKey(k) && !Rewrites(run[t], acts[t], k) && !Loses(run[t], acts[t], k)
    ensures Current(run[t + 1].truth, k) == Current(run[t].truth, k)
  {
    RunInv(run, acts, t);
    assert StepAt(run, acts, t);
    TruthKeptIff(run[t], acts[t], run[t + 1], k);
  }

  lemma TruthWrittenAt(run: seq<Cluster>, acts: seq<Action>, t: nat, k: Key)
    requires IsRun(run, acts) && t < |acts| && FileKey(k) && Writes(acts[t], k.ino)
    requires Holds(run[t], Slot(acts[t].n, acts[t].ino))
    ensures Current(run[t + 1].truth, k) == Under(Current(run[t].truth, k), acts[t].i.ops, k)
  {
    assert StepAt(run, acts, t);
    TruthWritten(run[t], acts[t], run[t + 1], k);
  }

  lemma {:induction false} TruthStaysFrom(run: seq<Cluster>, acts: seq<Action>, a: nat, b: nat, k: Key)
    requires IsRun(run, acts) && a <= b < |run| && FileKey(k)
    requires forall j :: a <= j < b ==> !Rewrites(run[j], acts[j], k) && !Loses(run[j], acts[j], k)
    ensures Current(run[b].truth, k) == Current(run[a].truth, k)
  {
    if a < b {
      TruthStaysFrom(run, acts, a, b - 1, k);
      TruthStays(run, acts, b - 1, k);
    }
  }

  /** What a write acknowledged for a key it names. */
  function Acknowledged(a: Action, k: Key): Option<Value>
    requires (a.BufferWrite? || a.SyncWrite?) && k in a.i.ops
  {
    if a.i.ops[k].Put? then Some(a.i.ops[k].value) else None
  }

  /** At `b` the write to `k` at `a` is the last one, and no writer was cut off
      with it still to publish. */
  ghost predicate LastWrite(run: seq<Cluster>, acts: seq<Action>, a: nat, b: nat, k: Key)
    requires |run| == |acts| + 1 && FileKey(k)
  {
    && a < b < |run| && Rewrites(run[a], acts[a], k) && k.ino == acts[a].ino
    && forall j :: a < j < b ==> !Rewrites(run[j], acts[j], k) && !Loses(run[j], acts[j], k)
  }

  lemma LastWriteIsTruth(run: seq<Cluster>, acts: seq<Action>, a: nat, b: nat, k: Key)
    requires IsRun(run, acts) && FileKey(k) && LastWrite(run, acts, a, b, k)
    ensures Current(run[b].truth, k) == Acknowledged(acts[a], k)
  {
    TruthWrittenAt(run, acts, a, k);
    TruthStaysFrom(run, acts, a + 1, b, k);
  }

  lemma ViewIsTruth(s: Cluster, slot: Slot, k: Key)
    requires Locks(s) && Entries(s) && Files(s) && Holds(s, slot) && At(s, slot).view.Some? && InFile(k, slot.ino)
    ensures Current(Seens(At(s, slot).view.value), k) == Current(s.truth, k)
  {
    var e := At(s, slot);
    AtIsOk(s, slot);
    assert HeldOk(s.kvs, slot.ino, e);
    assert AgreesAt(s.kvs, e.buf.ops, e.view.value, k);
    if e.excl {
      assert TruthOk(s, k);
    } else {
      LoadedTruth(s, slot, k);
    }
  }

  /** At every moment what any node has cached under a key in the store, shared
      or exclusive, is what was acknowledged, by whomever. */
  lemma EveryCacheIsTrue(run: seq<Cluster>, acts: seq<Action>, t: nat, slot: Slot, k: Key)
    requires IsRun(run, acts) && t < |run| && Holds(run[t], slot) && At(run[t], slot).view.Some? && InFile(k, slot.ino)
    ensures Current(Seens(At(run[t], slot).view.value), k) == Current(run[t].truth, k)
  {
    RunInv(run, acts, t);
    ViewIsTruth(run[t], slot, k);
  }

  /** A write acknowledged at `a` under a held key, buffered or committed, is what
      every node that has the file cached under a key in the store shows at `b`,
      whatever flushes, lost replies, recalls, acquisitions, other writes, fences,
      expiries and restarts came in between, unless the key was written again or
      its writer was cut off before the value reached the store. */
  lemma AcknowledgedWriteCached(run: seq<Cluster>, acts: seq<Action>, a: nat, b: nat, k: Key, slot: Slot)
    requires IsRun(run, acts) && FileKey(k) && LastWrite(run, acts, a, b, k)
    requires slot.ino == k.ino && Holds(run[b], slot) && At(run[b], slot).view.Some?
    ensures Current(Seens(At(run[b], slot).view.value), k) == Acknowledged(acts[a], k)
  {
    LastWriteIsTruth(run, acts, a, b, k);
    EveryCacheIsTrue(run, acts, b, slot, k);
  }

  /** ... and so what any node reads that loads the file then. */
  lemma AcknowledgedWriteSurvives(run: seq<Cluster>, acts: seq<Action>, a: nat, b: nat, k: Key)
    requires IsRun(run, acts) && FileKey(k) && LastWrite(run, acts, a, b, k)
    requires b < |acts| && acts[b].Load? && acts[b].ino == k.ino && Holds(run[b], Slot(acts[b].n, acts[b].ino))
    ensures At(run[b + 1], Slot(acts[b].n, acts[b].ino)).view.Some?
    ensures Current(Seens(At(run[b + 1], Slot(acts[b].n, acts[b].ino)).view.value), k) == Acknowledged(acts[a], k)
  {
    LastWriteIsTruth(run, acts, a, b, k);
    LoadReadsTruth(run, acts, b, k);
  }

  lemma FlushKeepsSaved(s: Cluster, n: Node, ino: nat, lost: bool, s': Cluster, k: Key)
    requires Entries(s) && Files(s) && FlushStep(s, n, ino, lost, s') && FileKey(k) && !Unsaved(s, k)
    ensures Stored'(s'.kvs, k) == Stored'(s.kvs, k)
  {
    AtIsOk(s, Slot(n, ino));
    assert k in At(s, Slot(n, ino)).buf.ops ==> k.ino == ino && Writer(s, Slot(n, ino));
  }

  lemma StoreKeepsStored(s: Cluster, a: Action, s': Cluster, k: Key)
    requires Entries(s) && Next(s, a, s') && FileKey(k) && !Rewrites(s, a, k) && OnStore(a) && !a.Flush?
    ensures Stored'(s'.kvs, k) == Stored'(s.kvs, k)
  {
  }

  lemma OthersKeepStored(s: Cluster, a: Action, s': Cluster, k: Key)
    requires Next(s, a, s') && FileKey(k) && !OnStore(a)
    ensures Stored'(s'.kvs, k) == Stored'(s.kvs, k)
  {
  }

  /** What the store shows of a key stays saved until the key is written again. */
  lemma SavedStays(run: seq<Cluster>, acts: seq<Action>, t: nat, k: Key)
    requires IsRun(run, acts) && t < |acts| && FileKey(k) && !Rewrites(run[t], acts[t], k) && !Unsaved(run[t], k)
    ensures !Unsaved(run[t + 1], k)
  {
    RunInv(run, acts, t);
    RunInv(run, acts, t + 1);
    assert StepAt(run, acts, t);
    TruthStays(run, acts, t, k);
    StoredStays(run[t], acts[t], run[t + 1], k);
    UnsavedIff(run[t], k);
    UnsavedIff(run[t + 1], k);
  }

  lemma StoredStays(s: Cluster, a: Action, s': Cluster, k: Key)
    requires Entries(s) && Files(s) && Next(s, a, s') && FileKey(k) && !Rewrites(s, a, k) && !Unsaved(s, k)
    ensures Stored'(s'.kvs, k) == Stored'(s.kvs, k)
  {
    if a.Flush? {
      FlushKeepsSaved(s, a.n, a.ino, a.lost, s', k);
    } else if OnStore(a) {
      StoreKeepsStored(s, a, s', k);
    } else {
      OthersKeepStored(s, a, s', k);
    }
  }

  lemma {:induction false} SavedStaysFrom(run: seq<Cluster>, acts: seq<Action>, p: nat, b: nat, k: Key)
    requires IsRun(run, acts) && FileKey(k) && p <= b < |run| && !Unsaved(run[p], k)
    requires forall j :: p <= j < b ==> !Rewrites(run[j], acts[j], k)
    ensures forall j :: p <= j <= b ==> !Unsaved(run[j], k)
  {
    if p < b {
      SavedStaysFrom(run, acts, p, b - 1, k);
      SavedStays(run, acts, b - 1, k);
    }
  }

  /** Once the store shows an acknowledged write, no fence, expiry or restart of
      anyone loses it, nor does anything else until the key is written again: it
      stays in the store, and is what every node reads. */
  lemma PublishedWriteIsSafe(run: seq<Cluster>, acts: seq<Action>, a: nat, p: nat, b: nat, k: Key)
    requires IsRun(run, acts) && FileKey(k) && p <= b < |run| && LastWrite(run, acts, a, p, k) && !Unsaved(run[p], k)
    requires forall j :: p <= j < b ==> !Rewrites(run[j], acts[j], k)
    ensures LastWrite(run, acts, a, b, k) && Stored'(run[b].kvs, k) == Acknowledged(acts[a], k)
  {
    SavedStaysFrom(run, acts, p, b, k);
    LastWriteIsTruth(run, acts, a, b, k);
    RunInv(run, acts, b);
    UnsavedIff(run[b], k);
  }

  /** A flush that commits saves all it holds, whether its reply arrives or not. */
  lemma FlushSaves(run: seq<Cluster>, acts: seq<Action>, t: nat, k: Key)
    requires IsRun(run, acts) && t < |acts| && acts[t].Flush? && InFile(k, acts[t].ino)
    ensures !Unsaved(run[t + 1], k)
  {
    RunInv(run, acts, t);
    RunInv(run, acts, t + 1);
    assert StepAt(run, acts, t);
    FlushedTruth(run[t], acts[t].n, acts[t].ino, acts[t].lost, run[t + 1], k);
    UnsavedIff(run[t + 1], k);
  }

  lemma FlushedTruth(s: Cluster, n: Node, ino: nat, lost: bool, s': Cluster, k: Key)
    requires Entries(s) && Files(s) && FlushStep(s, n, ino, lost, s') && InFile(k, ino)
    ensures Current(s'.truth, k) == Stored'(s'.kvs, k)
  {
    AtIsOk(s, Slot(n, ino));
    assert TruthOk(s, k);
  }

  // --- Generations --------------------------------------------------------------

  lemma WrittenKeepsGen(kvs: Kvs, ops: map<Key, Op>, rev: nat, n: Node)
    requires GenKey(n) !in ops
    ensures GenOf(Written(kvs, ops, rev), n) == GenOf(kvs, n)
  {
  }

  lemma WritesKeepGen(s: Cluster, a: Action, s': Cluster, n: Node)
    requires Entries(s) && Next(s, a, s') && (a.Flush? || a.SyncWrite?)
    ensures GenOf(s'.kvs, n) == GenOf(s.kvs, n)
  {
    if a.Flush? {
      AtIsOk(s, Slot(a.n, a.ino));
      WrittenKeepsGen(s.kvs, At(s, Slot(a.n, a.ino)).buf.ops, s.rev + 1, n);
    } else {
      WrittenKeepsGen(s.kvs, a.i.ops, s.rev + 1, n);
    }
  }

  lemma StoreKeepsGen(s: Cluster, a: Action, s': Cluster, n: Node)
    requires Entries(s) && Next(s, a, s') && OnStore(a)
    ensures GenOf(s.kvs, n) <= GenOf(s'.kvs, n)
    ensures a == Bump(n) ==> GenOf(s.kvs, n) < GenOf(s'.kvs, n)
  {
    if a.Flush? || a.SyncWrite? {
      WritesKeepGen(s, a, s', n);
    } else if a.Release? {
      assert GenKey(n) !in s.owed;
    }
  }

  lemma OthersKeepGen(s: Cluster, a: Action, s': Cluster, n: Node)
    requires Next(s, a, s') && !OnStore(a)
    ensures GenOf(s.kvs, n) == GenOf(s'.kvs, n)
  {
  }

  lemma GuardStays(s: Cluster, a: Action, s': Cluster, n: Node)
    requires Next(s, a, s') && n in s.guards && a != Start(n)
    ensures n in s'.guards && s'.guards[n] == s.guards[n]
  {
  }

  lemma GenGrowsAt(run: seq<Cluster>, acts: seq<Action>, t: nat, n: Node)
    requires IsRun(run, acts) && t < |acts|
    ensures GenOf(run[t].kvs, n) <= GenOf(run[t + 1].kvs, n)
    ensures acts[t] == Bump(n) ==> GenOf(run[t].kvs, n) < GenOf(run[t + 1].kvs, n)
    ensures n in run[t].guards && acts[t] != Start(n) ==> n in run[t + 1].guards && run[t + 1].guards[n] == run[t].guards[n]
  {
    RunInv(run, acts, t);
    assert StepAt(run, acts, t);
    if OnStore(acts[t]) {
      StoreKeepsGen(run[t], acts[t], run[t + 1], n);
    } else {
      OthersKeepGen(run[t], acts[t], run[t + 1], n);
    }
    if n in run[t].guards && acts[t] != Start(n) {
      GuardStays(run[t], acts[t], run[t + 1], n);
    }
  }

  lemma {:induction false} GensGrowFrom(run: seq<Cluster>, acts: seq<Action>, i: nat, j: nat, n: Node)
    requires IsRun(run, acts) && i <= j < |run|
    ensures GenOf(run[i].kvs, n) <= GenOf(run[j].kvs, n)
    ensures n in run[i].guards && (forall t :: i <= t < j ==> acts[t] != Start(n)) ==>
              n in run[j].guards && run[j].guards[n] == run[i].guards[n]
  {
    if i < j {
      GensGrowFrom(run, acts, i, j - 1, n);
      GenGrowsAt(run, acts, j - 1, n);
    }
  }

  /** The action commits something under a node's guard. */
  predicate CommitsGuarded(a: Action, n: Node) {
    (a.Acquire? || a.SyncWrite? || a.Flush? || a.Release?) && a.n == n
  }

  lemma GuardIsBounded(run: seq<Cluster>, acts: seq<Action>, t: nat, n: Node)
    requires IsRun(run, acts) && t < |run| && n in run[t].guards
    ensures run[t].guards[n] <= GenOf(run[t].kvs, n)
  {
    RunInv(run, acts, t);
  }

  /** Once a node's generation is bumped, nothing it started with the earlier
      one ever commits again: not until the process starts over. */
  lemma FencedNeverCommits(run: seq<Cluster>, acts: seq<Action>, i: nat, j: nat, n: Node)
    requires IsRun(run, acts) && i < j < |acts| && n in run[i].guards
    requires acts[i] == Bump(n) && forall t :: i < t < j ==> acts[t] != Start(n)
    ensures !GuardHolds(run[j], n) && !CommitsGuarded(acts[j], n)
  {
    GuardIsBounded(run, acts, i, n);
    GenGrowsAt(run, acts, i, n);
    GensGrowFrom(run, acts, i + 1, j, n);
    assert StepAt(run, acts, j);
  }

  /** No published extent is stamped beyond its writer's current generation. */
  lemma StampsAreCurrent(run: seq<Cluster>, acts: seq<Action>, t: nat, k: Key)
    requires IsRun(run, acts) && t < |run| && k in run[t].kvs && run[t].kvs[k].value.Stored?
    ensures run[t].kvs[k].value.ext.gen <= GenOf(run[t].kvs, run[t].kvs[k].value.ext.node)
  {
    RunInv(run, acts, t);
    assert StampOk(run[t].kvs, run[t].kvs[k].value);
  }
}
