/** The cached lock of one inode: its holder token, the metadata it vouches for
    and the writes buffered under it (internal/ipc/lockcache.go,
    internal/ipc/delegate.go). */
module LockEntries {
  import opened Common
  import opened Etcd
  import opened Deferred
  import opened PendingWrites
  import opened Delegation

  /** What one guarded commit reported: its revision, a comparison that failed,
      a generation that moved on, or nothing definite. */
  datatype Reply = Committed(rev: nat) | Rejected | Fenced | Failed

  datatype Outcome = Done | IsFenced | Transient | Conflict

  /** A held mode that satisfies a wanted one. */
  predicate Covers(held: bool, want: bool) {
    held || !want
  }

  /** An entry once the session it was filled under is compared with the one the
      node has. */
  function InSession(e: Entry, session: Option<nat>): Entry {
    if e.holder.Some? && session != Some(e.holder.value.lease) then Idle else e
  }

  /** An entry after it was asked for a key of a mode: kept if its key covers the
      mode or cannot be given up, else dropped and taken again if it can be. */
  function Ensured(e: Entry, want: bool, session: Option<nat>, pagesDropped: bool, taken: Option<Token>): Entry {
    var now := InSession(e, session);
    if now.holder.Some? && (Covers(now.excl, want) || !pagesDropped) then now
    else
      var free := if now.holder.Some? then Idle else now;
      if taken.Some? then free.(holder := taken, excl := want) else free
  }

  /** The key given up on the way, and owed a delete: a live one that does not
      cover the wanted mode. */
  function GivenUp(ino: nat, e: Entry, want: bool, session: Option<nat>, pagesDropped: bool): Option<Key> {
    var now := InSession(e, session);
    if now.holder.Some? && !Covers(now.excl, want) && pagesDropped then Some(LockKey(ino, now.excl, now.holder.value)) else None
  }

  datatype Buffered = Joined | Republished | NotBuffered

  function Dropped(e: Entry): Entry {
    e.(buf := Empty, view := None, lost := false, wedged := false)
  }

  /** The replies show the buffer in the store: it was committed, or it was
      rejected and every extent it puts is there as it puts it, and none that it
      deletes. */
  ghost predicate Confirmed(reply: Reply, read: Option<Kvs>, ops: map<Key, Op>) {
    reply.Committed? || (reply.Rejected? && read.Some? && LooksLanded(read.value, ops))
  }

  /** What becomes of an entry when its buffer is flushed. `read` is what the
      landed check read, `held` what the question about the key answered; None
      for a call that failed. `silent` says that a commit took effect unseen. */
  ghost function Flushed(e: Entry, ino: nat, reply: Reply, read: Option<Kvs>, held: Option<bool>, silent: bool): Entry {
    if e.buf == Empty then e
    else if e.holder.None? then Dropped(e)
    else
      match reply
      case Fenced => Dropped(e)
      case Failed => e.(lost := e.lost || silent)
      case Committed(rev) => Published(e, PutRevs(e.buf.ops, rev))
      case Rejected =>
        if read.Some? && LooksLanded(read.value, e.buf.ops) then Published(e, PublishedRevs(read.value, ino))
        else if held == Some(false) then Idle
        else e
  }

  class LockEntry {
    const ino: nat
    const pending: Pending
    var holder: Option<Token>
    var excl: bool
    var meta: Option<View>
    var metaFor: Option<Token>
    var bytes: nat
    ghost var lost: bool
    ghost var wedged: bool

    ghost predicate Valid()
      reads this, pending
    {
      && pending.Valid()
      && (meta.Some? ==> holder.Some? && metaFor == holder)
      && (pending.Contents() == Empty ==> !lost && !wedged)
      && (holder.None? ==> !lost && !wedged)
    }

    /** The entry as the cluster sees it; the mode of a key not held is nothing. */
    ghost function Abs(): Entry
      reads this, pending
    {
      Entry(holder, holder.Some? && excl, {}, meta, pending.Contents(), lost, wedged)
    }

    constructor (ino: nat)
      ensures Valid() && Abs() == Idle && this.ino == ino && fresh(pending)
    {
      this.ino := ino;
      pending := new Pending();
      holder, excl, meta, metaFor, bytes, lost, wedged := None, false, None, None, 0, false, false;
    }

    /** The metadata to trust: what was cached under the key held now. */
    method CachedMeta() returns (m: Option<View>)
      requires Valid()
      ensures m == Abs().view
    {
      if holder.None? || metaFor != holder {
        return None;
      }
      return meta;
    }

    method SetMeta(m: View)
      requires Valid()
      modifies `meta, `metaFor
      ensures Valid() && Abs() == old(Abs()).(view := if holder.Some? then Some(m) else None)
    {
      if holder.None? {
        return;
      }
      meta, metaFor := Some(m), holder;
    }

    method DropMeta()
      requires Valid()
      modifies `meta, `metaFor
      ensures Valid() && Abs() == old(Abs()).(view := None)
    {
      meta, metaFor := None, None;
    }

    method DiscardPending()
      requires Valid()
      modifies this, pending
      ensures Valid() && Abs() == Dropped(old(Abs()))
    {
      pending.Reset();
      bytes, meta, metaFor := 0, None, None;
      lost, wedged := false, false;
    }

    /** The buffer is in etcd; the cached records take the revisions it has. */
    method FlushCommitted(revs: map<Key, nat>)
      requires Valid()
      modifies this, pending
      ensures Valid() && Abs() == Published(old(Abs()), revs)
    {
      pending.Reset();
      bytes := 0;
      lost, wedged := false, false;
      if meta.Some? {
        meta := Some(Refresh(meta.value, revs));
      }
    }

    /** Everything cached under a key etcd has already deleted. */
    method KeyLost()
      requires Valid()
      modifies this, pending
      ensures Valid() && Abs() == Idle
    {
      holder, meta, metaFor := None, None, None;
      lost, wedged := false, false;
      if pending.order != [] {
        DiscardPending();
      }
      EmptyOrder(pending.order, pending.cmps, pending.ops);
    }

    /** The transaction that would publish the buffer: its comparisons and the
        exact key it was filled under. */
    method ProposeFlush() returns (cmps: seq<(Key, Cmp)>, ops: seq<(Key, Op)>)
      requires Valid() && holder.Some?
      requires forall k :: k in pending.cmps ==> !k.LockKey?
      ensures AsMap(ops) == Abs().buf.ops && DistinctKeys(ops)
      ensures forall kvs :: Passes(kvs, AsMap(cmps)) <==>
                            Passes(kvs, Abs().buf.cmps) && LockKey(ino, excl, holder.value) in kvs
    {
      cmps, ops := pending.Txn();
      var key := LockKey(ino, excl, holder.value);
      Snoc(cmps, (key, Present));
      cmps := cmps + [(key, Present)];
      forall kvs ensures Passes(kvs, AsMap(cmps)) <==> Passes(kvs, pending.cmps) && key in kvs {
        PassesWith(kvs, pending.cmps, key);
      }
    }

    /** Publishes the buffer. A failed device write or an indefinite reply keeps
        it; a rejection is first taken for a lost reply, then for a lost key. */
    method FlushLocked(onDevice: bool, reply: Reply, read: Option<Kvs>, held: Option<bool>, ghost silent: bool)
      returns (r: Outcome)
      requires Valid()
      modifies this, pending
      ensures Valid()
      ensures old(Abs()).buf == Empty ==> Abs() == old(Abs()) && r == Done
      ensures old(Abs()).buf != Empty && holder.Some? && !onDevice ==> Abs() == old(Abs()) && r == Transient
      ensures onDevice ==> Abs() == Flushed(old(Abs()), ino, reply, read, held, silent)
      ensures r == Done ==> Abs().buf == Empty && Abs().holder == old(Abs()).holder
      ensures Abs().buf == Empty || Abs().(lost := false) == old(Abs()).(lost := false)
      ensures old(Abs()).buf != Empty && old(holder).Some? && onDevice ==>
                && (r == IsFenced <==> reply.Fenced?) && (r == Transient <==> reply.Failed?)
                && (r == Done <==> reply.Committed?
                                   || (reply.Rejected? && read.Some? && LooksLanded(read.value, old(Abs()).buf.ops)))
      ensures old(holder).None? ==> r == Done
    {
      EmptyOrder(pending.order, pending.cmps, pending.ops);
      if pending.order == [] {
        return Done;
      }
      if holder.None? {
        DiscardPending();
        return Done;
      }
      if !onDevice {
        return Transient;
      }
      match reply {
        case Fenced =>
          DiscardPending();
          return IsFenced;
        case Failed =>
          lost := lost || silent;
          return Transient;
        case Rejected =>
          if read.Some? {
            var landed := FlushAlreadyLanded(read.value, pending.order, pending.ops);
            if landed {
              FlushCommitted(PublishedRevs(read.value, ino));
              return Done;
            }
          }
          if held == Some(false) {
            KeyLost();
          }
          return Conflict;
        case Committed(rev) =>
          FlushCommitted(PutRevs(pending.ops, rev));
          return Done;
      }
    }

    /** Takes a write into the buffer and into the cached metadata, or publishes
        a buffer too full for it and asks for a new plan. */
    method BufferWrite(cmps: seq<(Key, Cmp)>, ops: seq<(Key, Op)>, size: nat, maxBytes: nat,
                       onDevice: bool, reply: Reply, read: Option<Kvs>, held: Option<bool>, ghost silent: bool)
      returns (r: Buffered)
      requires Valid() && holder.Some? && AsMap(cmps).Keys <= AsMap(ops).Keys && ops != []
      modifies this, pending
      ensures Valid()
      ensures r == Joined ==>
                Abs() == old(Abs()).(buf := Fold(old(Abs()).buf, AsMap(cmps), AsMap(ops)), wedged := old(lost),
                                     view := if old(meta).Some? then Some(Replay(old(meta).value, AsMap(ops), 0)) else None)
      ensures r == Republished ==> Abs().buf == Empty && Abs().holder == old(holder)
      ensures r != Joined ==> Abs().buf == Empty || Abs().(lost := false) == old(Abs()).(lost := false)
      ensures r == Joined <==> old(Abs()).buf == Empty
                               || (|old(Abs()).buf.ops| + |ops| <= MAX_TXN_OPS && old(bytes) + size <= maxBytes)
      ensures r == Joined ==> bytes == old(bytes) + size && |Abs().buf.ops| <= Max(|ops|, MAX_TXN_OPS)
      ensures r == Republished ==> onDevice && Confirmed(reply, read, old(Abs()).buf.ops)
      ensures r == NotBuffered ==> !onDevice || !Confirmed(reply, read, old(Abs()).buf.ops)
    {
      EmptyOrder(pending.order, pending.cmps, pending.ops);
      ListedSize(pending.order, pending.ops.Keys);
      if pending.order != [] && (|pending.order| + |ops| > MAX_TXN_OPS || bytes + size > maxBytes) {
        var err := FlushLocked(onDevice, reply, read, held, silent);
        return if err == Done then Republished else NotBuffered;
      }
      FoldedSize(pending.Contents(), cmps, ops);
      Join(cmps, ops, size);
      return Joined;
    }

    /** Folds a write into the buffer and replays it into the cached metadata. */
    method Join(cmps: seq<(Key, Cmp)>, ops: seq<(Key, Op)>, size: nat)
      requires Valid() && holder.Some? && AsMap(cmps).Keys <= AsMap(ops).Keys && ops != []
      modifies this, pending
      ensures Valid() && bytes == old(bytes) + size
      ensures Abs() == old(Abs()).(buf := Fold(old(Abs()).buf, AsMap(cmps), AsMap(ops)), wedged := old(lost),
                                   view := if old(meta).Some? then Some(Replay(old(meta).value, AsMap(ops), 0)) else None)
    {
      FoldIn(cmps, ops, size);
      ReplayMeta(ops);
    }

    method FoldIn(cmps: seq<(Key, Cmp)>, ops: seq<(Key, Op)>, size: nat)
      requires Valid() && holder.Some? && AsMap(cmps).Keys <= AsMap(ops).Keys && ops != []
      modifies `bytes, `wedged, pending
      ensures Valid() && bytes == old(bytes) + size
      ensures Abs() == old(Abs()).(buf := Fold(old(Abs()).buf, AsMap(cmps), AsMap(ops)), wedged := lost)
    {
      NotEmptied(pending.Contents(), cmps, ops);
      pending.Add(cmps, ops);
      bytes := bytes + size;
      wedged := lost;
    }

    /** Replays a buffered write into the cached metadata. */
    method ReplayMeta(ops: seq<(Key, Op)>)
      requires Valid()
      modifies `meta, `metaFor
      ensures Valid() && Abs() == old(Abs()).(view := if old(meta).Some? then Some(Replay(old(meta).value, AsMap(ops), 0)) else None)
    {
      if meta.Some? {
        meta, metaFor := Some(Replay(meta.value, AsMap(ops), 0)), holder;
      }
    }

    /** Whether the key may be given up: nothing buffered is left unpublished and
        the kernel's pages are gone. */
    method PrepareDrop(pagesDropped: bool, onDevice: bool, reply: Reply, read: Option<Kvs>, held: Option<bool>, ghost silent: bool)
      returns (ok: bool)
      requires Valid()
      modifies this, pending
      ensures Valid()
      ensures ok <==> pagesDropped && Abs().buf == Empty
      ensures onDevice ==> Abs() == Flushed(old(Abs()), ino, reply, read, held, silent)
      ensures Abs().buf != Empty ==> Abs().(lost := false) == old(Abs()).(lost := false)
    {
      EmptyOrder(pending.order, pending.cmps, pending.ops);
      if pending.order != [] {
        var err := FlushLocked(onDevice, reply, read, held, silent);
        EmptyOrder(pending.order, pending.cmps, pending.ops);
        if err != Done && pending.order != [] {
          return false;
        }
      }
      return pagesDropped;
    }

    /** Gives up everything held under the key and says which key is owed a delete. */
    method ForgetKey() returns (owed: Option<Key>)
      requires Valid()
      modifies this, pending
      ensures Valid() && Abs() == Idle
      ensures owed == if old(holder).Some? then Some(LockKey(ino, old(excl), old(holder).value)) else None
    {
      owed := if holder.Some? then Some(LockKey(ino, excl, holder.value)) else None;
      holder, meta, metaFor := None, None, None;
      lost, wedged := false, false;
      if pending.order != [] {
        DiscardPending();
      }
      EmptyOrder(pending.order, pending.cmps, pending.ops);
    }

    /** Makes sure a key of the wanted mode is held. A key of a session that is
        gone is given up at once, one that does not cover the mode only with the
        kernel's pages; `taken` is what the acquisition brought, if it came to
        one. */
    method EnsureLockKey(want: bool, session: Option<nat>, pagesDropped: bool, taken: Option<Token>)
      returns (ok: bool, owed: Option<Key>)
      requires Valid()
      modifies this, pending
      ensures Valid() && Abs() == Ensured(old(Abs()), want, session, pagesDropped, taken)
      ensures owed == GivenUp(ino, old(Abs()), want, session, pagesDropped)
      ensures ok ==> holder.Some? && (want ==> excl) && (session == Some(holder.value.lease) || holder == taken)
      ensures var e := old(Abs());
              e.holder.Some? && session == Some(e.holder.value.lease) ==>
                if e.excl || !want then ok && Abs() == e && owed == None
                else if !pagesDropped then !ok && Abs() == e && owed == None
                else
                  && owed == Some(LockKey(ino, false, e.holder.value))
                  && ok == taken.Some? && Abs() == if ok then Fresh(taken.value, true) else Idle
      ensures var e := old(Abs());
              e.holder.Some? && session != Some(e.holder.value.lease) ==>
                owed == None && ok == taken.Some? && Abs() == if ok then Fresh(taken.value, want) else Idle
      ensures old(holder).None? ==> owed == None && ok == taken.Some? && holder == taken && (ok ==> excl == want)
    {
      owed := None;
      if holder.Some? && session != Some(holder.value.lease) {
        KeyLost();
      }
      if holder.Some? && Covers(excl, want) {
        return true, owed;
      }
      if holder.Some? {
        if !pagesDropped {
          return false, owed;
        }
        owed := ForgetKey();
      }
      if taken.None? {
        return false, owed;
      }
      holder, excl := taken, want;
      return true, owed;
    }

    /** The end of one operation: an exclusive one that did not publish what it
        changed leaves no cached metadata behind. */
    method Release(exclusive: bool, published: bool)
      requires Valid()
      modifies `meta, `metaFor
      ensures Valid() && Abs() == if exclusive && !published then old(Abs()).(view := None) else old(Abs())
    {
      if exclusive && !published {
        DropMeta();
      }
    }
  }

  lemma NotEmptied(buf: Buffer, cmps: seq<(Key, Cmp)>, ops: seq<(Key, Op)>)
    requires ops != []
    ensures Fold(buf, AsMap(cmps), AsMap(ops)) != Empty
  {
    assert ops[|ops| - 1].0 in AsMap(ops);
    assert ops[|ops| - 1].0 in Fold(buf, AsMap(cmps), AsMap(ops)).ops;
  }

  /** The buffer grows by no more than the operations folded into it. */
  lemma FoldedSize(buf: Buffer, cmps: seq<(Key, Cmp)>, ops: seq<(Key, Op)>)
    ensures |Fold(buf, AsMap(cmps), AsMap(ops)).ops| <= |buf.ops| + |ops|
  {
    var more := AsMap(ops);
    KeysFew(ops);
    assert Fold(buf, AsMap(cmps), more).ops.Keys == buf.ops.Keys + more.Keys;
    assert |buf.ops.Keys + more.Keys| <= |buf.ops.Keys| + |more.Keys|;
    assert |Fold(buf, AsMap(cmps), more).ops| == |Fold(buf, AsMap(cmps), more).ops.Keys|;
  }

  lemma {:induction false} KeysFew(ops: seq<(Key, Op)>)
    ensures |AsMap(ops).Keys| <= |ops|
  {
    if ops != [] {
      KeysFew(ops[..|ops| - 1]);
      assert AsMap(ops).Keys == AsMap(ops[..|ops| - 1]).Keys + {ops[|ops| - 1].0};
    }
  }

  lemma {:induction false} ListedSize(order: seq<Key>, keys: set<Key>)
    requires Lists(order, keys)
    ensures |order| == |keys|
  {
    if order == [] {
      assert keys == {};
    } else {
      var last := order[|order| - 1];
      assert Lists(order[..|order| - 1], keys - {last});
      ListedSize(order[..|order| - 1], keys - {last});
    }
  }

  lemma PassesWith(kvs: Kvs, cmps: map<Key, Cmp>, key: Key)
    requires key !in cmps
    ensures Passes(kvs, cmps[key := Present]) <==> Passes(kvs, cmps) && key in kvs
  {
    var more := cmps[key := Present];
    if Passes(kvs, more) {
      assert Meets(kvs, key, more[key]);
      forall k | k in cmps ensures Meets(kvs, k, cmps[k]) {
        assert Meets(kvs, k, more[k]);
      }
    }
  }

  lemma EmptyOrder(order: seq<Key>, cmps: map<Key, Cmp>, ops: map<Key, Op>)
    requires Lists(order, ops.Keys) && cmps.Keys <= ops.Keys
    ensures order == [] <==> Buffer(cmps, ops) == Empty
  {
    if order != [] {
      assert order[0] in ops;
    }
  }

  // --- The methods are steps of the cluster ------------------------------------------------

  /** What the replies to one flush say is so of the store they come from. */
  ghost predicate Truthful(s: Cluster, n: Node, ino: nat, reply: Reply, read: Option<Kvs>, held: Option<bool>, silent: bool)
    requires At(s, Slot(n, ino)).holder.Some?
  {
    var e := At(s, Slot(n, ino));
    var passes := GuardHolds(s, n) && Passes(s.kvs, e.buf.cmps) && HeldKey(Slot(n, ino), e) in s.kvs;
    match reply
    case Committed(rev) => passes && rev == s.rev + 1
    case Fenced => !GuardHolds(s, n)
    case Failed => silent ==> passes
    case Rejected =>
      && !passes
      && (read.Some? ==> read.value == s.kvs)
      && (held.Some? ==> (held.value <==> HeldKey(Slot(n, ino), e) in s.kvs))
  }

  /** The step of the cluster a flush takes, if it takes one. */
  ghost function FlushAction(n: Node, ino: nat, e: Entry, reply: Reply, read: Option<Kvs>): Action {
    match reply
    case Committed(_) => Flush(n, ino, false)
    case Fenced => FindFenced(n, ino)
    case Failed => Flush(n, ino, true)
    case Rejected => if read.Some? && LooksLanded(read.value, e.buf.ops) then FindLanded(n, ino) else FindKeyLost(n, ino)
  }

  lemma CommitIsStep(s: Cluster, n: Node, ino: nat, lost: bool) returns (s': Cluster)
    requires var e := At(s, Slot(n, ino));
             && e.holder.Some? && e.buf != Empty && GuardHolds(s, n)
             && Passes(s.kvs, e.buf.cmps) && HeldKey(Slot(n, ino), e) in s.kvs
    ensures FlushStep(s, n, ino, lost, s')
    ensures var e := At(s, Slot(n, ino));
            At(s', Slot(n, ino)) == if lost then e.(lost := true) else Published(e, PutRevs(e.buf.ops, s.rev + 1))
  {
    var e := At(s, Slot(n, ino));
    s' := Put1(s, Slot(n, ino), if lost then e.(lost := true) else Published(e, PutRevs(e.buf.ops, s.rev + 1)))
          .(kvs := Written(s.kvs, e.buf.ops, s.rev + 1), rev := s.rev + 1);
  }

  lemma FencedIsStep(s: Cluster, n: Node, ino: nat) returns (s': Cluster)
    requires At(s, Slot(n, ino)).holder.Some? && !GuardHolds(s, n)
    ensures FindFencedStep(s, n, ino, s') && At(s', Slot(n, ino)) == Dropped(At(s, Slot(n, ino)))
  {
    var slot := Slot(n, ino);
    s' := Put1(s, slot, Dropped(At(s, slot)))
          .(truth := if Writer(s, slot) then Forgotten(s.truth, s.kvs, {ino}) else s.truth);
  }

  /** A buffer whose comparisons hold is not taken for one that landed. */
  lemma PassesOrLanded(kvs: Kvs, buf: Buffer, lost: bool, wedged: bool)
    requires Progress(kvs, buf, lost, wedged) && buf != Empty && Passes(kvs, buf.cmps)
    ensures !LooksLanded(kvs, buf.ops)
  {
    OutcomeOf(kvs, buf, lost, wedged);
    var anchor :| IsAnchor(buf, anchor);
    assert Meets(kvs, anchor, Missing);
  }

  lemma RejectedIsStep(s: Cluster, n: Node, ino: nat, read: Option<Kvs>, held: Option<bool>) returns (s': Cluster)
    requires var e := At(s, Slot(n, ino)); e.holder.Some? && e.buf != Empty
    requires Truthful(s, n, ino, Reply.Rejected, read, held, false)
    requires Holds(s, Slot(n, ino)) ==> HeldOk(s.kvs, ino, At(s, Slot(n, ino)))
    ensures var e := At(s, Slot(n, ino));
            if read.Some? && LooksLanded(read.value, e.buf.ops) then
              FindLandedStep(s, n, ino, s') && At(s', Slot(n, ino)) == Published(e, PublishedRevs(read.value, ino))
            else if held == Some(false) then FindKeyLostStep(s, n, ino, s') && At(s', Slot(n, ino)) == Idle
            else s' == s
  {
    var e := At(s, Slot(n, ino));
    if Holds(s, Slot(n, ino)) && Passes(s.kvs, e.buf.cmps) {
      PassesOrLanded(s.kvs, e.buf, e.lost, e.wedged);
    }
    s' := if read.Some? && LooksLanded(read.value, e.buf.ops) then Put1(s, Slot(n, ino), Published(e, PublishedRevs(read.value, ino)))
          else if held == Some(false) then Put1(s, Slot(n, ino), Idle) else s;
  }

  /** From `s`, flushing takes the entry where the code takes it, by one step
      of the cluster or by none. */
  ghost predicate FlushSteps(s: Cluster, n: Node, ino: nat, reply: Reply, read: Option<Kvs>, held: Option<bool>, silent: bool, s': Cluster) {
    && At(s', Slot(n, ino)) == Flushed(At(s, Slot(n, ino)), ino, reply, read, held, silent)
    && (s' == s || Next(s, FlushAction(n, ino, At(s, Slot(n, ino)), reply, read), s'))
  }

  lemma CommittedSteps(s: Cluster, n: Node, ino: nat, reply: Reply, read: Option<Kvs>, held: Option<bool>, silent: bool)
    returns (s': Cluster)
    requires At(s, Slot(n, ino)).holder.Some? && At(s, Slot(n, ino)).buf != Empty
    requires Truthful(s, n, ino, reply, read, held, silent) && (reply.Committed? || reply.Failed?)
    ensures FlushSteps(s, n, ino, reply, read, held, silent, s')
  {
    if reply.Committed? || silent {
      s' := CommitIsStep(s, n, ino, reply.Failed?);
    } else {
      s' := s;
    }
  }

  lemma FencedSteps(s: Cluster, n: Node, ino: nat, reply: Reply, read: Option<Kvs>, held: Option<bool>, silent: bool)
    returns (s': Cluster)
    requires At(s, Slot(n, ino)).holder.Some? && At(s, Slot(n, ino)).buf != Empty
    requires Truthful(s, n, ino, reply, read, held, silent) && reply.Fenced?
    ensures FlushSteps(s, n, ino, reply, read, held, silent, s')
  {
    s' := FencedIsStep(s, n, ino);
  }

  lemma RejectedSteps(s: Cluster, n: Node, ino: nat, reply: Reply, read: Option<Kvs>, held: Option<bool>, silent: bool)
    returns (s': Cluster)
    requires At(s, Slot(n, ino)).holder.Some? && At(s, Slot(n, ino)).buf != Empty
    requires Holds(s, Slot(n, ino)) ==> HeldOk(s.kvs, ino, At(s, Slot(n, ino)))
    requires Truthful(s, n, ino, reply, read, held, silent) && reply.Rejected?
    ensures FlushSteps(s, n, ino, reply, read, held, silent, s')
  {
    s' := RejectedIsStep(s, n, ino, read, held);
  }

  lemma HeldIsOk(s: Cluster, slot: Slot)
    requires Inv(s)
    ensures Holds(s, slot) ==> HeldOk(s.kvs, slot.ino, At(s, slot))
  {
  }

  /** Flushing an entry, whatever its calls answer, leaves it alone or takes it
      through one step of the cluster. */
  lemma FlushIsStep(s: Cluster, n: Node, ino: nat, reply: Reply, read: Option<Kvs>, held: Option<bool>, silent: bool)
    returns (s': Cluster)
    requires Inv(s) && At(s, Slot(n, ino)).holder.Some? && At(s, Slot(n, ino)).buf != Empty
    requires Truthful(s, n, ino, reply, read, held, silent)
    ensures FlushSteps(s, n, ino, reply, read, held, silent, s')
  {
    HeldIsOk(s, Slot(n, ino));
    match reply {
      case Committed(_) => s' := CommittedSteps(s, n, ino, reply, read, held, silent);
      case Failed => s' := CommittedSteps(s, n, ino, reply, read, held, silent);
      case Fenced => s' := FencedSteps(s, n, ino, reply, read, held, silent);
      case Rejected => s' := RejectedSteps(s, n, ino, reply, read, held, silent);
    }
  }

  /** The store shows the effect of the buffer's extent operations, and of all of
      them if `all`. */
  ghost predicate Shown(kvs: Kvs, ops: map<Key, Op>, all: bool) {
    forall k :: k in ops && (k.ExtentKey? || all) ==> Stored'(kvs, k) == Under(None, ops, k)
  }

  /** A flush that reports success, on replies the store could give, leaves
      nothing buffered and every extent operation of the buffer in the store. If
      the key is still there, so is the rest of the buffer, and the store holds
      the file as acknowledged. */
  lemma DoneIsPublished(s: Cluster, n: Node, ino: nat, reply: Reply, read: Option<Kvs>, held: Option<bool>, silent: bool)
    returns (s': Cluster)
    requires Inv(s) && At(s, Slot(n, ino)).holder.Some? && At(s, Slot(n, ino)).buf != Empty
    requires Truthful(s, n, ino, reply, read, held, silent) && Confirmed(reply, read, At(s, Slot(n, ino)).buf.ops)
    ensures FlushSteps(s, n, ino, reply, read, held, silent, s') && At(s', Slot(n, ino)).buf == Empty
    ensures Shown(s'.kvs, At(s, Slot(n, ino)).buf.ops, Holds(s, Slot(n, ino)))
    ensures Holds(s, Slot(n, ino)) ==> forall k :: InFile(k, ino) ==> Current(s'.truth, k) == Stored'(s'.kvs, k)
  {
    if reply.Committed? {
      s' := CommittedIsPublished(s, n, ino, reply, read, held, silent);
    } else {
      HeldIsOk(s, Slot(n, ino));
      s' := AdoptedIsPublished(s, n, ino, reply, read, held, silent);
    }
    if Holds(s, Slot(n, ino)) {
      PublishedTruth(s, Slot(n, ino), s');
    }
  }

  /** Nothing but the buffer's own keys moved, and nothing acknowledged. */
  ghost predicate OnlyBuffer(s: Cluster, slot: Slot, s': Cluster) {
    s'.truth == s.truth && forall k :: k !in At(s, slot).buf.ops ==> Stored'(s'.kvs, k) == Stored'(s.kvs, k)
  }

  lemma CommittedIsPublished(s: Cluster, n: Node, ino: nat, reply: Reply, read: Option<Kvs>, held: Option<bool>, silent: bool)
    returns (s': Cluster)
    requires At(s, Slot(n, ino)).holder.Some? && At(s, Slot(n, ino)).buf != Empty
    requires Truthful(s, n, ino, reply, read, held, silent) && reply.Committed?
    ensures FlushSteps(s, n, ino, reply, read, held, silent, s') && At(s', Slot(n, ino)).buf == Empty
    ensures Shown(s'.kvs, At(s, Slot(n, ino)).buf.ops, true) && OnlyBuffer(s, Slot(n, ino), s')
  {
    s' := CommitIsStep(s, n, ino, false);
    CommitPublishes(s, n, ino, s');
  }

  lemma AdoptedIsPublished(s: Cluster, n: Node, ino: nat, reply: Reply, read: Option<Kvs>, held: Option<bool>, silent: bool)
    returns (s': Cluster)
    requires At(s, Slot(n, ino)).holder.Some? && At(s, Slot(n, ino)).buf != Empty
    requires Holds(s, Slot(n, ino)) ==> HeldOk(s.kvs, ino, At(s, Slot(n, ino)))
    requires Truthful(s, n, ino, reply, read, held, silent) && reply.Rejected?
    requires read.Some? && LooksLanded(read.value, At(s, Slot(n, ino)).buf.ops)
    ensures FlushSteps(s, n, ino, reply, read, held, silent, s') && At(s', Slot(n, ino)).buf == Empty
    ensures Shown(s'.kvs, At(s, Slot(n, ino)).buf.ops, Holds(s, Slot(n, ino))) && OnlyBuffer(s, Slot(n, ino), s')
  {
    var e := At(s, Slot(n, ino));
    s' := RejectedIsStep(s, n, ino, read, held);
    AdoptionKeeps(s, n, ino, s');
    if Holds(s, Slot(n, ino)) {
      AdoptedIsLanded(s.kvs, e.buf, e.lost, e.wedged);
    }
  }

  lemma AdoptionKeeps(s: Cluster, n: Node, ino: nat, s': Cluster)
    requires FindLandedStep(s, n, ino, s')
    ensures s'.kvs == s.kvs && s'.truth == s.truth && At(s', Slot(n, ino)).buf == Empty
  {
  }

  lemma CommitPublishes(s: Cluster, n: Node, ino: nat, s': Cluster)
    requires FlushStep(s, n, ino, false, s')
    ensures Shown(s'.kvs, At(s, Slot(n, ino)).buf.ops, true) && OnlyBuffer(s, Slot(n, ino), s')
  {
  }

  lemma AdoptedIsLanded(kvs: Kvs, buf: Buffer, lost: bool, wedged: bool)
    requires Progress(kvs, buf, lost, wedged) && buf != Empty && LooksLanded(kvs, buf.ops)
    ensures Shown(kvs, buf.ops, true)
  {
    if Passes(kvs, buf.cmps) {
      PassesOrLanded(kvs, buf, lost, wedged);
    }
    OutcomeOf(kvs, buf, lost, wedged);
  }

  /** With all of its writer's operations in the store, the file is there as
      acknowledged. */
  lemma PublishedTruth(s: Cluster, slot: Slot, s': Cluster)
    requires Inv(s) && Holds(s, slot) && At(s, slot).buf != Empty
    requires Shown(s'.kvs, At(s, slot).buf.ops, true) && OnlyBuffer(s, slot, s')
    ensures forall k :: InFile(k, slot.ino) ==> Current(s'.truth, k) == Stored'(s'.kvs, k)
  {
    assert EntryOk(s.minted, slot, s.entries[slot]);
    forall k | InFile(k, slot.ino) ensures Current(s'.truth, k) == Stored'(s'.kvs, k) {
      assert TruthOk(s, k);
    }
  }

  /** A write that joined the buffer is the cluster's buffered write. */
  lemma BufferIsStep(s: Cluster, n: Node, ino: nat, cmps: seq<(Key, Cmp)>, ops: seq<(Key, Op)>) returns (s': Cluster)
    requires var e := At(s, Slot(n, ino)); e.holder.Some? && e.excl && e.view.Some? && n in s.guards
    requires var view := At(s, Slot(n, ino)).view.value;
             && AsMap(cmps) == CmpsFor(view, AsMap(cmps).Keys)
             && WritePlan(ino, view, Intent(AsMap(cmps).Keys, AsMap(ops)))
             && Stamped(n, s.guards[n], view, AsMap(ops))
    ensures Next(s, BufferWrite(n, ino, Intent(AsMap(cmps).Keys, AsMap(ops))), s')
    ensures var e := At(s, Slot(n, ino));
            At(s', Slot(n, ino)) == e.(buf := Fold(e.buf, AsMap(cmps), AsMap(ops)), wedged := e.lost,
                                       view := Some(Replay(e.view.value, AsMap(ops), 0)))
  {
    var slot := Slot(n, ino);
    var e := At(s, slot);
    s' := Put1(s, slot, e.(buf := Fold(e.buf, AsMap(cmps), AsMap(ops)), wedged := e.lost,
                           view := Some(Replay(e.view.value, AsMap(ops), 0))))
          .(truth := if Holds(s, slot) then Acked(s.truth, AsMap(ops)) else s.truth);
  }

  /** Giving a key up, with nothing left buffered, is the cluster's drop. */
  lemma DropIsStep(s: Cluster, n: Node, ino: nat) returns (s': Cluster)
    requires At(s, Slot(n, ino)).holder.Some? && At(s, Slot(n, ino)).buf == Empty
    ensures Next(s, Drop(n, ino), s') && At(s', Slot(n, ino)) == Idle
    ensures HeldKey(Slot(n, ino), At(s, Slot(n, ino))) in s'.owed
  {
    var slot := Slot(n, ino);
    s' := Put1(s, slot, Idle).(owed := s.owed + {HeldKey(slot, At(s, slot))});
  }

  lemma SessionLostIsStep(s: Cluster, n: Node, ino: nat) returns (s': Cluster)
    requires At(s, Slot(n, ino)).holder.Some?
    requires !(n in s.sessions && s.sessions[n] == At(s, Slot(n, ino)).holder.value.lease)
    ensures Next(s, FindSessionLost(n, ino), s') && At(s', Slot(n, ino)) == Idle
  {
    var slot := Slot(n, ino);
    s' := Put1(s, slot, Idle).(truth := if Writer(s, slot) then Forgotten(s.truth, s.kvs, {ino}) else s.truth);
  }

  lemma AcquireIsStep(s: Cluster, n: Node, ino: nat, excl: bool) returns (s': Cluster)
    requires n in s.sessions && s.sessions[n] in s.live && GuardHolds(s, n)
    requires At(s, Slot(n, ino)).holder.None?
    requires forall k :: k in s.kvs && k.LockKey? && k.ino == ino ==> !excl && !k.excl
    ensures Next(s, Acquire(n, ino, excl, false), s') && At(s', Slot(n, ino)) == Fresh(NextToken(s, n), excl)
  {
    var tok := NextToken(s, n);
    s' := Put1(Mint(s, n, ino, excl), Slot(n, ino), Fresh(tok, excl))
          .(kvs := s.kvs[LockKey(ino, excl, tok) := Kv(HeldBy(n), s.rev + 1, s.rev + 1, tok.lease)], rev := s.rev + 1);
  }

  /** The session as the node knows it. */
  function SessionOf(s: Cluster, n: Node): Option<nat> {
    if n in s.sessions then Some(s.sessions[n]) else None
  }

  /** What asking for a key gives up is given up by steps of the cluster: first a
      lost session is found, then a key that does not cover the mode dropped. */
  lemma GivesUpBySteps(s: Cluster, n: Node, ino: nat, want: bool) returns (s1: Cluster, s2: Cluster)
    requires Entries(s)
    ensures s1 == s || Next(s, FindSessionLost(n, ino), s1)
    ensures s2 == s1 || Next(s1, Drop(n, ino), s2)
    ensures At(s2, Slot(n, ino)) == Ensured(At(s, Slot(n, ino)), want, SessionOf(s, n), true, None)
    ensures var gone := GivenUp(ino, At(s, Slot(n, ino)), want, SessionOf(s, n), true);
            gone.Some? ==> gone.value in s2.owed
  {
    var slot := Slot(n, ino);
    s1 := s;
    if At(s, slot).holder.Some? && SessionOf(s, n) != Some(At(s, slot).holder.value.lease) {
      s1 := SessionLostIsStep(s, n, ino);
    }
    s2 := s1;
    if At(s1, slot).holder.Some? && !Covers(At(s1, slot).excl, want) {
      SharedIsEmpty(s, slot);
      s2 := DropIsStep(s1, n, ino);
    }
  }

  /** Nothing is buffered under a shared key. */
  lemma SharedIsEmpty(s: Cluster, slot: Slot)
    requires Entries(s)
    ensures !At(s, slot).excl ==> At(s, slot).buf == Empty
  {
    assert slot in s.entries ==> EntryOk(s.minted, slot, s.entries[slot]);
  }
}
