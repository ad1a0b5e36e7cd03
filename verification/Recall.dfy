/** A file passes from the node that holds it to one that wants it
    (internal/ipc/lockcache.go, internal/ipc/retry.go, pkg/metadata/lock.go). */
module Recall {
  import opened Common
  import opened Etcd
  import opened Deferred
  import opened Delegation
  import opened DelegationInvariant
  import opened Handover

  /** A node that could take the file if nobody had it. */
  ghost predicate Waits(s: Cluster, n: Node, ino: nat) {
    n in s.sessions && s.sessions[n] in s.live && GuardHolds(s, n) && At(s, Slot(n, ino)).holder.None?
  }

  /** What the handover goes through: reachable, the holder `m` not fenced, `n`
      waiting, and the files acknowledged as they were. */
  ghost predicate Passing(s: Cluster, m: Node, n: Node, ino: nat, truth: map<Key, Value>) {
    Inv(s) && GuardHolds(s, m) && Waits(s, n, ino) && s.truth == truth
  }

  lemma Commits(s: Cluster, m: Node, n: Node, ino: nat) returns (s': Cluster)
    requires Passing(s, m, n, ino, s.truth) && m != n && Writer(s, Slot(m, ino))
    requires At(s, Slot(m, ino)).buf != Empty && !At(s, Slot(m, ino)).lost
    ensures Next(s, Flush(m, ino, false), s') && Flushed(s, m, n, ino, s')
  {
    var slot := Slot(m, ino);
    var e := At(s, slot);
    AtIsOk(s, slot);
    HeldProgress(s, slot);
    OutcomeOf(s.kvs, e.buf, e.lost, e.wedged);
    s' := Put1(s, slot, Published(e, PutRevs(e.buf.ops, s.rev + 1))).(kvs := Written(s.kvs, e.buf.ops, s.rev + 1), rev := s.rev + 1);
    assert FlushStep(s, m, ino, false, s');
  }

  /** The holder has nothing left to publish; nothing the handover needs changed. */
  ghost predicate Flushed(s: Cluster, m: Node, n: Node, ino: nat, s': Cluster) {
    && Writer(s', Slot(m, ino)) && At(s', Slot(m, ino)).buf == Empty
    && GuardHolds(s', m) && Waits(s', n, ino) && s'.truth == s.truth
  }

  lemma HeldProgress(s: Cluster, slot: Slot)
    requires Files(s) && Writer(s, slot)
    ensures Progress(s.kvs, At(s, slot).buf, At(s, slot).lost, At(s, slot).wedged)
  {
    assert HeldOk(s.kvs, slot.ino, s.entries[slot]);
  }

  lemma Adopts(s: Cluster, m: Node, n: Node, ino: nat) returns (s': Cluster)
    requires Passing(s, m, n, ino, s.truth) && m != n && Writer(s, Slot(m, ino))
    requires var e := At(s, Slot(m, ino)); e.buf != Empty && e.lost && !e.wedged
    ensures Next(s, FindLanded(m, ino), s') && Flushed(s, m, n, ino, s')
  {
    var slot := Slot(m, ino);
    var e := At(s, slot);
    HeldProgress(s, slot);
    OutcomeOf(s.kvs, e.buf, e.lost, e.wedged);
    s' := Put1(s, slot, Published(e, PublishedRevs(s.kvs, ino)));
    assert FindLandedStep(s, m, ino, s');
  }

  lemma Yields(s: Cluster, m: Node, n: Node, ino: nat) returns (s': Cluster)
    requires GuardHolds(s, m) && Waits(s, n, ino) && m != n && Writer(s, Slot(m, ino)) && At(s, Slot(m, ino)).buf == Empty
    ensures Next(s, Drop(m, ino), s') && GuardHolds(s', m) && Waits(s', n, ino) && s'.truth == s.truth && s'.kvs == s.kvs
    ensures HeldKey(Slot(m, ino), At(s, Slot(m, ino))) in s'.owed
  {
    var slot := Slot(m, ino);
    s' := Put1(s, slot, Idle).(owed := s.owed + {HeldKey(slot, At(s, slot))});
  }

  lemma Deletes(s: Cluster, m: Node, n: Node, key: Key) returns (s': Cluster)
    requires GuardHolds(s, m) && key.LockKey? && key in s.owed && OnlyLock(s.kvs, key) && Waits(s, n, key.ino)
    ensures Next(s, Release(m, {key}), s') && Waits(s', n, key.ino) && s'.truth == s.truth && Free(s'.kvs, key.ino)
  {
    s' := s.(kvs := WithoutKeys(s.kvs, {key}), rev := s.rev + 1);
  }

  /** Nobody's lock on the file is in the store. */
  ghost predicate Free(kvs: Kvs, ino: nat) {
    forall k :: k in kvs && k.LockKey? ==> k.ino != ino
  }

  lemma Takes(s: Cluster, n: Node, ino: nat, excl: bool) returns (s': Cluster)
    requires Waits(s, n, ino) && Free(s.kvs, ino)
    ensures Next(s, Acquire(n, ino, excl, false), s') && s'.truth == s.truth
    ensures var e := At(s', Slot(n, ino)); Holds(s', Slot(n, ino)) && e.excl == excl && e.view == None && e.buf == Empty
  {
    var tok := NextToken(s, n);
    s' := Put1(Mint(s, n, ino, excl), Slot(n, ino), Fresh(tok, excl))
          .(kvs := s.kvs[LockKey(ino, excl, tok) := Kv(HeldBy(n), s.rev + 1, s.rev + 1, tok.lease)], rev := s.rev + 1);
  }

  lemma Loads(s: Cluster, n: Node, ino: nat) returns (s': Cluster)
    requires var e := At(s, Slot(n, ino)); Holds(s, Slot(n, ino)) && e.view == None && e.buf == Empty
    ensures Next(s, Load(n, ino), s') && s'.truth == s.truth && Holds(s', Slot(n, ino))
    ensures At(s', Slot(n, ino)).excl == At(s, Slot(n, ino)).excl && At(s', Slot(n, ino)).view.Some?
  {
    s' := Put1(s, Slot(n, ino), At(s, Slot(n, ino)).(view := Some(ViewOf(s.kvs, ino))));
  }

  function Last(run: seq<Cluster>): Cluster
    requires run != []
  {
    run[|run| - 1]
  }

  lemma OneMore(run: seq<Cluster>, acts: seq<Action>, a: Action, s': Cluster)
    requires IsRun(run, acts) && Next(Last(run), a, s')
    ensures IsRun(run + [s'], acts + [a]) && Last(run + [s']) == s'
  {
    var run', acts' := run + [s'], acts + [a];
    forall i | 0 <= i < |acts'| ensures StepAt(run', acts', i) {
      if i < |acts| {
        assert StepAt(run, acts, i);
      }
    }
  }

  /** The run goes on with these actions, and nothing acknowledged changes. */
  ghost predicate GoesOn(run: seq<Cluster>, acts: seq<Action>, run': seq<Cluster>, acts': seq<Action>) {
    && IsRun(run, acts) && IsRun(run', acts') && run <= run' && acts <= acts' && Last(run').truth == Last(run).truth
  }

  lemma GoesOneMore(run: seq<Cluster>, acts: seq<Action>, run': seq<Cluster>, acts': seq<Action>, a: Action, s': Cluster)
    requires GoesOn(run, acts, run', acts') && Next(Last(run'), a, s') && s'.truth == Last(run').truth
    ensures GoesOn(run, acts, run' + [s'], acts' + [a]) && Last(run' + [s']) == s'
  {
    OneMore(run', acts', a, s');
  }

  lemma Publishes(run: seq<Cluster>, acts: seq<Action>, m: Node, n: Node, ino: nat) returns (run': seq<Cluster>, acts': seq<Action>)
    requires IsRun(run, acts) && m != n && Writer(Last(run), Slot(m, ino)) && !At(Last(run), Slot(m, ino)).wedged
    requires GuardHolds(Last(run), m) && Waits(Last(run), n, ino)
    ensures GoesOn(run, acts, run', acts') && Flushed(Last(run), m, n, ino, Last(run'))
  {
    var s := Last(run);
    RunInv(run, acts, |acts|);
    run', acts' := run, acts;
    if At(s, Slot(m, ino)).buf != Empty {
      var a, s1 := FindLanded(m, ino), s;
      if At(s, Slot(m, ino)).lost {
        s1 := Adopts(s, m, n, ino);
      } else {
        a := Flush(m, ino, false);
        s1 := Commits(s, m, n, ino);
      }
      GoesOneMore(run, acts, run', acts', a, s1);
      run', acts' := run' + [s1], acts' + [a];
    }
  }

  lemma LetsGo(run: seq<Cluster>, acts: seq<Action>, m: Node, n: Node, ino: nat) returns (run': seq<Cluster>, acts': seq<Action>)
    requires IsRun(run, acts) && m != n && Writer(Last(run), Slot(m, ino)) && At(Last(run), Slot(m, ino)).buf == Empty
    requires GuardHolds(Last(run), m) && Waits(Last(run), n, ino)
    ensures GoesOn(run, acts, run', acts') && Waits(Last(run'), n, ino) && Free(Last(run').kvs, ino)
  {
    var s := Last(run);
    var key := HeldKey(Slot(m, ino), At(s, Slot(m, ino)));
    RunInv(run, acts, |acts|);
    ExclusiveIsAlone(s, key);
    var s1 := Yields(s, m, n, ino);
    GoesOneMore(run, acts, run, acts, Drop(m, ino), s1);
    run', acts' := run + [s1], acts + [Drop(m, ino)];
    var s2 := Deletes(s1, m, n, key);
    GoesOneMore(run, acts, run', acts', Release(m, {key}), s2);
    run', acts' := run' + [s2], acts' + [Release(m, {key})];
  }

  lemma Gets(run: seq<Cluster>, acts: seq<Action>, n: Node, ino: nat, excl: bool) returns (run': seq<Cluster>, acts': seq<Action>)
    requires IsRun(run, acts) && Waits(Last(run), n, ino) && Free(Last(run).kvs, ino)
    ensures GoesOn(run, acts, run', acts') && Holds(Last(run'), Slot(n, ino))
    ensures At(Last(run'), Slot(n, ino)).excl == excl && At(Last(run'), Slot(n, ino)).view.Some?
  {
    var s1 := Takes(Last(run), n, ino, excl);
    GoesOneMore(run, acts, run, acts, Acquire(n, ino, excl, false), s1);
    run', acts' := run + [s1], acts + [Acquire(n, ino, excl, false)];
    var s2 := Loads(s1, n, ino);
    GoesOneMore(run, acts, run', acts', Load(n, ino), s2);
    run', acts' := run' + [s2], acts' + [Load(n, ino)];
  }

  /** In any reachable state a node that holds a file, and is neither fenced nor
      stuck with a buffer refused for good, can pass it on: publish what it
      buffered, give the key up and have it deleted; and a node that waits for the
      file can then take it, in either mode, and reads all that was acknowledged. */
  lemma RecallCompletes(run: seq<Cluster>, acts: seq<Action>, m: Node, n: Node, ino: nat, excl: bool)
    returns (run': seq<Cluster>, acts': seq<Action>)
    requires IsRun(run, acts) && m != n && Writer(Last(run), Slot(m, ino)) && !At(Last(run), Slot(m, ino)).wedged
    requires GuardHolds(Last(run), m) && Waits(Last(run), n, ino)
    ensures GoesOn(run, acts, run', acts') && Holds(Last(run'), Slot(n, ino)) && At(Last(run'), Slot(n, ino)).excl == excl
    ensures At(Last(run'), Slot(n, ino)).view.Some?
    ensures forall k :: InFile(k, ino) ==>
                          Current(Seens(At(Last(run'), Slot(n, ino)).view.value), k) == Current(Last(run).truth, k)
  {
    var run1, acts1 := Publishes(run, acts, m, n, ino);
    var run2, acts2 := LetsGo(run1, acts1, m, n, ino);
    run', acts' := Gets(run2, acts2, n, ino, excl);
    forall k | InFile(k, ino)
      ensures Current(Seens(At(Last(run'), Slot(n, ino)).view.value), k) == Current(Last(run).truth, k)
    {
      EveryCacheIsTrue(run', acts', |acts'|, Slot(n, ino), k);
    }
  }

  /** With a buffer refused for good the holder can do none of it: its flush does
      not pass, is not recognised as landed, and the key may not be given up. */
  lemma WedgedCannotYield(run: seq<Cluster>, acts: seq<Action>, m: Node, ino: nat, lost: bool, s': Cluster)
    requires IsRun(run, acts) && Writer(Last(run), Slot(m, ino)) && At(Last(run), Slot(m, ino)).wedged
    ensures !Next(Last(run), Flush(m, ino, lost), s') && !Next(Last(run), FindLanded(m, ino), s')
    ensures !Next(Last(run), Drop(m, ino), s')
  {
    var e := At(Last(run), Slot(m, ino));
    RunInv(run, acts, |acts|);
    HeldProgress(Last(run), Slot(m, ino));
    OutcomeOf(Last(run).kvs, e.buf, e.lost, e.wedged);
    WedgedHasBuffer(Last(run).kvs, e.buf, e.lost);
    Stuck(Last(run), m, ino, lost, s');
  }

  lemma Stuck(s: Cluster, m: Node, ino: nat, lost: bool, s': Cluster)
    requires var buf := At(s, Slot(m, ino)).buf; buf != Empty && !Passes(s.kvs, buf.cmps) && !LooksLanded(s.kvs, buf.ops)
    ensures !Next(s, Flush(m, ino, lost), s') && !Next(s, FindLanded(m, ino), s') && !Next(s, Drop(m, ino), s')
  {
  }

  lemma WedgedHasBuffer(kvs: Kvs, buf: Buffer, lost: bool)
    requires Progress(kvs, buf, lost, true)
    ensures lost && buf != Empty
  {
  }

  // --- What the steps that change who may do what leave behind ------------------------

  ghost predicate SameFor(s: Cluster, s': Cluster, n: Node) {
    forall slot: Slot :: slot.node != n ==> At(s', slot) == At(s, slot)
  }

  /** A bump shuts out the node it names, if it ran, and no other. */
  lemma BumpShutsOut(s: Cluster, n: Node, s': Cluster)
    requires Stamps(s) && Next(s, Bump(n), s')
    ensures GenOf(s'.kvs, n) == GenOf(s.kvs, n) + 1 && !GuardHolds(s', n)
    ensures forall o :: o != n ==> (GuardHolds(s', o) <==> GuardHolds(s, o))
    ensures forall k :: k != GenKey(n) ==> Stored'(s'.kvs, k) == Stored'(s.kvs, k)
  {
  }

  /** A node that starts over may commit again, and remembers no lock, no view and
      no buffer; the others keep theirs, and the files stay as published. */
  lemma StartLetsIn(s: Cluster, n: Node, s': Cluster)
    requires Inv(s) && Next(s, Start(n), s')
    ensures GuardHolds(s', n) && n !in s'.sessions && (forall ino :: At(s', Slot(n, ino)) == Idle) && SameFor(s, s', n)
    ensures forall k :: k != GenKey(n) ==> Stored'(s'.kvs, k) == Stored'(s.kvs, k)
  {
    StartForgets(s, n, s');
    StartReadsGuard(s, n, s');
  }

  lemma StartForgets(s: Cluster, n: Node, s': Cluster)
    requires StartStep(s, n, s')
    ensures n !in s'.sessions && (forall ino :: At(s', Slot(n, ino)) == Idle) && SameFor(s, s', n)
  {
  }

  lemma StartReadsGuard(s: Cluster, n: Node, s': Cluster)
    requires Stamps(s) && StartStep(s, n, s')
    ensures GuardHolds(s', n) && forall k :: k != GenKey(n) ==> Stored'(s'.kvs, k) == Stored'(s.kvs, k)
  {
  }

  /** An expired lease takes every lock key written under it along, and only those. */
  lemma ExpireFrees(s: Cluster, lease: nat, s': Cluster)
    requires Next(s, Expire(lease), s')
    ensures lease !in s'.live && forall k :: k in s'.kvs <==> k in s.kvs && !(k.LockKey? && s.kvs[k].lease == lease)
    ensures forall k :: k in s'.kvs ==> s'.kvs[k] == s.kvs[k]
  {
  }

  lemma ReleaseFrees(s: Cluster, n: Node, keys: set<Key>, s': Cluster)
    requires Next(s, Release(n, keys), s')
    ensures forall k :: k in s'.kvs <==> k in s.kvs && k !in keys
    ensures forall k :: k in s'.kvs ==> s'.kvs[k] == s.kvs[k]
  {
  }

  /** An attempt that had committed is taken up under the token it used. */
  lemma AdoptTakes(s: Cluster, n: Node, ino: nat, tok: Token, s': Cluster)
    requires Inv(s) && Next(s, Adopt(n, ino, tok), s')
    ensures Holds(s', Slot(n, ino)) && At(s', Slot(n, ino)).holder == Some(tok) && At(s', Slot(n, ino)).buf == Empty
    ensures s'.kvs == s.kvs && forall slot :: slot != Slot(n, ino) ==> At(s', slot) == At(s, slot)
  {
  }

  /** Two nodes that both want a file exclusively: while one holds it the other's
      attempt is refused. */
  lemma HeldIsRefused(s: Cluster, m: Node, n: Node, ino: nat, excl: bool, lost: bool, s': Cluster)
    requires Holds(s, Slot(m, ino)) && (excl || At(s, Slot(m, ino)).excl)
    ensures !Next(s, Acquire(n, ino, excl, lost), s')
  {
    assert HeldKey(Slot(m, ino), At(s, Slot(m, ino))) in s.kvs;
  }
}
