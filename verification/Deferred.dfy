/** Deferred writes under one held lock key: the buffer that coalesces them, the
    cached view they are planned on, and the flush that publishes them
    (internal/ipc/delegate.go, internal/ipc/datapath.go replayTxn). */
module Deferred {
  import opened Common
  import opened Extents
  import opened Etcd

  /** A buffered transaction, coalesced by key. */
  datatype Buffer = Buffer(cmps: map<Key, Cmp>, ops: map<Key, Op>)

  const Empty := Buffer(map[], map[])

  /** A cached record and the revision it was read or written at; 0 for one
      that is only buffered. Only extents carry a revision that matters. */
  datatype Seen = Seen(value: Value, rev: nat)

  type View = map<Key, Seen>

  /** What one write asks for: operations, and the keys it compares. */
  datatype Intent = Intent(checked: set<Key>, ops: map<Key, Op>)

  predicate Within(i: Intent, ino: nat) {
    i.checked <= i.ops.Keys && forall k :: k in i.ops ==> InFile(k, ino)
  }

  /** The comparisons of a write planned on `view`: a key it sees is where it
      saw it, a key it does not see is missing. */
  function CmpsFor(view: View, checked: set<Key>): map<Key, Cmp> {
    map k | k in checked :: if k in view then ModIs(view[k].rev) else Missing
  }

  /** Folds a proposal into the buffer: a comparison counts only for a key the
      buffer does not own, an operation always replaces. */
  function Fold(buf: Buffer, cmps: map<Key, Cmp>, ops: map<Key, Op>): Buffer {
    Buffer(buf.cmps + (cmps - buf.ops.Keys), buf.ops + ops)
  }

  /** The view after the operations, its new records dated `rev`. */
  function Replay(view: View, ops: map<Key, Op>, rev: nat): View {
    map k | k in view.Keys + ops.Keys && (k in ops ==> ops[k].Put?) ::
      if k in ops then Seen(ops[k].value, rev) else view[k]
  }

  /** The view once its records carry the given revisions. */
  function Refresh(view: View, revs: map<Key, nat>): View {
    map k | k in view :: if k in revs then Seen(view[k].value, revs[k]) else view[k]
  }

  function Seens(view: View): map<Key, Value> {
    map k | k in view :: view[k].value
  }

  /** The revisions a committed flush reports: those of the keys it put. */
  function PutRevs(ops: map<Key, Op>, rev: nat): map<Key, nat> {
    map k | k in ops && ops[k].Put? :: rev
  }

  /** The revisions the landed check reads back. */
  function PublishedRevs(kvs: Kvs, ino: nat): map<Key, nat> {
    map k | k in kvs && k.ExtentKey? && k.ino == ino :: kvs[k].mod
  }

  /** One key of the view is etcd's, or the buffer's where the buffer owns it. */
  predicate AgreesAt(kvs: Kvs, ops: map<Key, Op>, view: View, k: Key) {
    if k in ops then
      && (k in view <==> ops[k].Put?)
      && (k in view ==> view[k].value == ops[k].value && (k.ExtentKey? ==> view[k].rev == 0))
    else
      && (k in view <==> k in kvs)
      && (k in view ==> view[k].value == kvs[k].value && (k.ExtentKey? ==> view[k].rev == kvs[k].mod))
  }

  /** The cached view is etcd overlaid with the buffer. */
  ghost predicate Agrees(ino: nat, kvs: Kvs, buf: Buffer, view: View) {
    && (forall k :: k in buf.ops || k in view ==> InFile(k, ino))
    && (forall k :: InFile(k, ino) ==> AgreesAt(kvs, buf.ops, view, k))
  }

  /** The buffer's comparisons are on keys it writes and hold in etcd. */
  ghost predicate Ready(kvs: Kvs, buf: Buffer) {
    buf.cmps.Keys <= buf.ops.Keys && Passes(kvs, buf.cmps)
  }

  /** Every operation of the buffer is in etcd. */
  ghost predicate Landed(kvs: Kvs, ops: map<Key, Op>) {
    forall k :: k in ops ==> if ops[k].Put? then k in kvs && kvs[k].value == ops[k].value else k !in kvs
  }

  // --- One step at a time ------------------------------------------------

  /** Buffering a write planned on the view keeps the view true. */
  lemma BufferKeeps(ino: nat, kvs: Kvs, buf: Buffer, view: View, i: Intent)
    requires Agrees(ino, kvs, buf, view) && Within(i, ino)
    ensures Agrees(ino, kvs, Fold(buf, CmpsFor(view, i.checked), i.ops), Replay(view, i.ops, 0))
  {
  }

  /** ... and adds only comparisons that hold in etcd. */
  lemma BufferStaysReady(ino: nat, kvs: Kvs, buf: Buffer, view: View, i: Intent)
    requires Agrees(ino, kvs, buf, view) && Within(i, ino) && Ready(kvs, buf)
    requires forall k :: k in i.checked ==> k.ExtentKey?
    ensures Ready(kvs, Fold(buf, CmpsFor(view, i.checked), i.ops))
  {
    var b := Fold(buf, CmpsFor(view, i.checked), i.ops);
    forall k | k in b.cmps ensures Meets(kvs, k, b.cmps[k]) {
      if k in i.checked && k !in buf.ops {
        assert InFile(k, ino) && AgreesAt(kvs, buf.ops, view, k);
      }
    }
  }

  /** A committed flush leaves a view of etcd alone, with its revisions. */
  lemma FlushKeeps(ino: nat, kvs: Kvs, buf: Buffer, view: View, rev: nat)
    requires Agrees(ino, kvs, buf, view)
    ensures Agrees(ino, Written(kvs, buf.ops, rev), Empty, Refresh(view, PutRevs(buf.ops, rev)))
  {
    var kvs', view' := Written(kvs, buf.ops, rev), Refresh(view, PutRevs(buf.ops, rev));
    forall k | InFile(k, ino) ensures AgreesAt(kvs', map[], view', k) {
      assert AgreesAt(kvs, buf.ops, view, k);
    }
  }

  /** A flush whose reply is lost keeps the view true with the buffer as it is. */
  lemma LostFlushKeeps(ino: nat, kvs: Kvs, buf: Buffer, view: View, rev: nat)
    requires Agrees(ino, kvs, buf, view)
    ensures Agrees(ino, Written(kvs, buf.ops, rev), buf, view)
    ensures Landed(Written(kvs, buf.ops, rev), buf.ops)
  {
    var kvs' := Written(kvs, buf.ops, rev);
    forall k | InFile(k, ino) ensures AgreesAt(kvs', buf.ops, view, k) {
      assert AgreesAt(kvs, buf.ops, view, k);
    }
  }

  /** Adopting a landed flush leaves a view of etcd alone, with its revisions. */
  lemma AdoptKeeps(ino: nat, kvs: Kvs, buf: Buffer, view: View)
    requires Agrees(ino, kvs, buf, view) && Landed(kvs, buf.ops)
    ensures Agrees(ino, kvs, Empty, Refresh(view, PublishedRevs(kvs, ino)))
  {
    var view' := Refresh(view, PublishedRevs(kvs, ino));
    forall k | InFile(k, ino) ensures AgreesAt(kvs, map[], view', k) {
      assert AgreesAt(kvs, buf.ops, view, k);
    }
  }

  /** A synchronous commit planned on a view with nothing buffered passes, and
      its replay at the commit's revision is again a view of etcd. */
  lemma SyncKeeps(ino: nat, kvs: Kvs, view: View, i: Intent, rev: nat)
    requires Agrees(ino, kvs, Empty, view) && Within(i, ino)
    requires forall k :: k in i.checked ==> k.ExtentKey?
    ensures Passes(kvs, CmpsFor(view, i.checked))
    ensures Agrees(ino, Written(kvs, i.ops, rev), Empty, Replay(view, i.ops, rev))
  {
    forall k | k in i.checked ensures Meets(kvs, k, CmpsFor(view, i.checked)[k]) {
      assert InFile(k, ino) && AgreesAt(kvs, map[], view, k);
    }
    var kvs', view' := Written(kvs, i.ops, rev), Replay(view, i.ops, rev);
    forall k | InFile(k, ino) ensures AgreesAt(kvs', map[], view', k) {
      assert AgreesAt(kvs, map[], view, k);
    }
  }

  // --- Coalescing ---------------------------------------------------------

  /** A write planned from the values it reads. */
  type Planner = map<Key, Value> -> Intent

  ghost predicate Plans(p: Planner, ino: nat) {
    forall m :: Within(p(m), ino) && forall k :: k in p(m).checked ==> k.ExtentKey?
  }

  /** Every write joins the buffer. */
  function BufferAll(buf: Buffer, view: View, ps: seq<Planner>): (Buffer, View)
    decreases |ps|
  {
    if ps == [] then (buf, view)
    else var i := ps[0](Seens(view));
      BufferAll(Fold(buf, CmpsFor(view, i.checked), i.ops), Replay(view, i.ops, 0), ps[1..])
  }

  datatype Outcome = Rejected | Committed(kvs: Kvs, view: View)

  /** Every write commits on its own. */
  ghost function CommitAll(kvs: Kvs, rev: nat, view: View, ps: seq<Planner>): Outcome
    decreases |ps|
  {
    if ps == [] then Committed(kvs, view)
    else var i := ps[0](Seens(view));
      if !Passes(kvs, CmpsFor(view, i.checked)) then Rejected
      else CommitAll(Written(kvs, i.ops, rev + 1), rev + 1, Replay(view, i.ops, rev + 1), ps[1..])
  }

  /** One more operation set on both sides of equal values. */
  lemma SameValues(base: Kvs, ops: map<Key, Op>, kvs: Kvs, more: map<Key, Op>, r: nat, rev: nat)
    requires Values(Written(base, ops, r)) == Values(kvs)
    ensures Values(Written(base, ops + more, r)) == Values(Written(kvs, more, rev))
  {
    var a, b := Values(Written(base, ops + more, r)), Values(Written(kvs, more, rev));
    forall k ensures k in a <==> k in b {
      assert k in Values(Written(base, ops, r)) <==> k in Values(kvs);
    }
    forall k | k in a ensures a[k] == b[k] {
      if k !in more {
        assert k in Values(kvs) && Values(Written(base, ops, r))[k] == Values(kvs)[k];
      }
    }
  }

  /** One flush of the coalesced buffer leaves the keys and values that
      committing the same writes one by one leaves; neither is ever rejected. */
  lemma {:induction false} CoalescingPreservesMeaning(ino: nat, base: Kvs, r: nat, buf: Buffer, cached: View,
                                                      kvs: Kvs, rev: nat, direct: View, ps: seq<Planner>)
    requires Agrees(ino, base, buf, cached) && Ready(base, buf)
    requires Agrees(ino, kvs, Empty, direct)
    requires Values(Written(base, buf.ops, r)) == Values(kvs) && Seens(cached) == Seens(direct)
    requires forall j :: 0 <= j < |ps| ==> Plans(ps[j], ino)
    ensures var (b, v) := BufferAll(buf, cached, ps);
            var out := CommitAll(kvs, rev, direct, ps);
            && out.Committed?
            && Ready(base, b)
            && Values(Written(base, b.ops, r)) == Values(out.kvs)
            && Agrees(ino, base, b, v) && Seens(v) == Seens(out.view)
    decreases |ps|
  {
    if ps != [] {
      var i := ps[0](Seens(cached));
      assert Plans(ps[0], ino);
      BufferKeeps(ino, base, buf, cached, i);
      BufferStaysReady(ino, base, buf, cached, i);
      SyncKeeps(ino, kvs, direct, i, rev + 1);
      SameValues(base, buf.ops, kvs, i.ops, r, rev + 1);
      SameSeens(cached, direct, i.ops, rev + 1);
      CoalescingPreservesMeaning(ino, base, r, Fold(buf, CmpsFor(cached, i.checked), i.ops), Replay(cached, i.ops, 0),
                                 Written(kvs, i.ops, rev + 1), rev + 1, Replay(direct, i.ops, rev + 1), ps[1..]);
    }
  }

  lemma SameSeens(a: View, b: View, ops: map<Key, Op>, rev: nat)
    requires Seens(a) == Seens(b)
    ensures Seens(Replay(a, ops, 0)) == Seens(Replay(b, ops, rev))
  {
    var x, y := Seens(Replay(a, ops, 0)), Seens(Replay(b, ops, rev));
    forall k ensures k in x <==> k in y {
      assert k in Seens(a) <==> k in Seens(b);
    }
    forall k | k in x ensures x[k] == y[k] {
      if k !in ops {
        assert Seens(a)[k] == Seens(b)[k];
      }
    }
  }

  // --- Exactly once -------------------------------------------------------

  /** Proposing a landed flush again passes only if it did nothing but delete
      keys that were missing all along. */
  lemma ReproposalPassesIff(kvs: Kvs, buf: Buffer, rev: nat)
    requires Ready(kvs, buf) && Dated(kvs, rev)
    requires forall k :: k in buf.cmps ==> !buf.cmps[k].Present?
    ensures Passes(Written(kvs, buf.ops, rev + 1), buf.cmps)
            <==> forall k :: k in buf.cmps ==> k !in kvs && buf.ops[k].Delete?
  {
    var kvs' := Written(kvs, buf.ops, rev + 1);
    if Passes(kvs', buf.cmps) {
      forall k | k in buf.cmps ensures k !in kvs && buf.ops[k].Delete? {
        assert Meets(kvs, k, buf.cmps[k]) && Meets(kvs', k, buf.cmps[k]);
      }
    } else {
      var k :| k in buf.cmps && !Meets(kvs', k, buf.cmps[k]);
      assert Meets(kvs, k, buf.cmps[k]);
    }
  }

  /** What flushAlreadyLanded decides: every extent operation is in etcd, and
      there is at least one. */
  ghost predicate LooksLanded(kvs: Kvs, ops: map<Key, Op>) {
    && (forall k :: k in ops && k.ExtentKey? ==>
          if ops[k].Put? then k in kvs && kvs[k].value == ops[k].value else k !in kvs)
    && exists k :: k in ops && k.ExtentKey?
  }

  /** The loop over the buffer's keys in the order they were first touched. */
  method FlushAlreadyLanded(kvs: Kvs, order: seq<Key>, ops: map<Key, Op>) returns (landed: bool)
    requires forall k :: k in order <==> k in ops
    ensures landed <==> LooksLanded(kvs, ops)
  {
    var checked := 0;
    for i := 0 to |order|
      invariant 0 <= checked <= i
      invariant checked > 0 <==> exists j :: 0 <= j < i && order[j].ExtentKey?
      invariant forall j :: 0 <= j < i && order[j].ExtentKey? ==>
                  if ops[order[j]].Put? then order[j] in kvs && kvs[order[j]].value == ops[order[j]].value
                  else order[j] !in kvs
    {
      var key := order[i];
      assert key in order;
      if key.ExtentKey? {
        if ops[key].Delete? {
          if key in kvs {
            return false;
          }
        } else if key !in kvs || kvs[key].value != ops[key].value {
          return false;
        }
        checked := checked + 1;
      }
    }
    landed := checked > 0;
    if landed {
      var j :| 0 <= j < |order| && order[j].ExtentKey?;
      assert order[j] in order;
    }
  }

  /** An extent the buffer creates, compared as missing when it was planned. */
  predicate IsAnchor(buf: Buffer, k: Key) {
    k in buf.cmps && k in buf.ops && k.ExtentKey? && buf.cmps[k] == Missing && buf.ops[k].Put?
  }

  /** With such an extent in the buffer: proposing a landed flush again is
      rejected, and the landed check holds exactly of a store it landed in. */
  lemma ExactlyOnce(kvs: Kvs, buf: Buffer, rev: nat, anchor: Key)
    requires Ready(kvs, buf) && IsAnchor(buf, anchor)
    ensures !LooksLanded(kvs, buf.ops)
    ensures !Passes(Written(kvs, buf.ops, rev + 1), buf.cmps)
    ensures LooksLanded(Written(kvs, buf.ops, rev + 1), buf.ops)
  {
    assert Meets(kvs, anchor, Missing);
    assert !Meets(Written(kvs, buf.ops, rev + 1), anchor, Missing);
  }

  // --- A lost reply, and what follows it ----------------------------------

  /** The chunk of `k` is above every chunk of the view. */
  ghost predicate Above(view: View, k: Key) {
    k.ExtentKey? && forall j :: j in view && j.ExtentKey? ==> j.chunk < k.chunk
  }

  /** A write planned on the view: it compares extents only, creates one above
      every chunk it sees, and deletes only what it sees. */
  ghost predicate WritePlan(ino: nat, view: View, i: Intent) {
    && Within(i, ino)
    && (forall k :: k in i.checked ==> k.ExtentKey?)
    && (exists k :: k in i.checked && Above(view, k) && i.ops[k].Put?)
    && (forall k :: k in i.ops && k.ExtentKey? ==> k in view || i.ops[k].Put?)
  }

  /** Chunks the buffer names are not above the view's. */
  ghost predicate Topped(ops: map<Key, Op>, view: View) {
    forall k :: k in ops && k.ExtentKey? ==> exists j :: j in view && j.ExtentKey? && k.chunk <= j.chunk
  }

  ghost predicate Anchored(buf: Buffer) {
    exists k :: IsAnchor(buf, k)
  }

  /** Some comparison of the buffer fails for good. */
  ghost predicate Refused(kvs: Kvs, buf: Buffer) {
    exists k :: k in buf.cmps && k in buf.ops && !Meets(kvs, k, buf.cmps[k])
  }

  ghost predicate Unpublished(kvs: Kvs, buf: Buffer) {
    exists k :: k in buf.ops && k.ExtentKey? && buf.ops[k].Put? && k !in kvs
  }

  /** Where a buffer stands. Until a flush commits without the node learning of
      it (`lost`), its comparisons hold. After that they never do again; it is
      all in etcd unless a write was buffered since (`wedged`). */
  ghost predicate Progress(kvs: Kvs, buf: Buffer, lost: bool, wedged: bool) {
    if !lost then !wedged && Ready(kvs, buf) && (buf == Empty || Anchored(buf))
    else && Refused(kvs, buf)
         && (if wedged then Unpublished(kvs, buf) else Landed(kvs, buf.ops) && Anchored(buf))
  }

  /** The extent a write creates is in no one's hands yet: not the buffer's, not etcd's. */
  lemma CreatedIsNew(ino: nat, kvs: Kvs, buf: Buffer, view: View, k: Key)
    requires Agrees(ino, kvs, buf, view) && Topped(buf.ops, view) && Above(view, k) && InFile(k, ino)
    ensures k !in view && k !in buf.ops && k !in kvs
  {
    assert AgreesAt(kvs, buf.ops, view, k);
  }

  lemma ToppedAfter(ino: nat, ops: map<Key, Op>, view: View, i: Intent)
    requires Topped(ops, view) && WritePlan(ino, view, i)
    ensures Topped(ops + i.ops, Replay(view, i.ops, 0))
  {
    var a :| a in i.checked && Above(view, a) && i.ops[a].Put?;
    var view' := Replay(view, i.ops, 0);
    forall k | k in ops + i.ops && k.ExtentKey?
      ensures exists j :: j in view' && j.ExtentKey? && k.chunk <= j.chunk
    {
      if k in i.ops && i.ops[k].Put? {
        assert k in view';
      } else if k in i.ops {
        assert a in view' && k in view;
      } else {
        var j :| j in view && j.ExtentKey? && k.chunk <= j.chunk;
        assert a in view' && j.chunk < a.chunk;
      }
    }
  }

  /** A buffer with a failing comparison is not let through. */
  lemma RefusedFails(kvs: Kvs, buf: Buffer)
    requires Refused(kvs, buf)
    ensures !Passes(kvs, buf.cmps)
  {
    var k :| k in buf.cmps && k in buf.ops && !Meets(kvs, k, buf.cmps[k]);
  }

  /** Once it has landed, a buffer that creates an extent is refused. */
  lemma LandedRefused(kvs: Kvs, buf: Buffer)
    requires Landed(kvs, buf.ops) && Anchored(buf)
    ensures Refused(kvs, buf)
  {
    var a :| IsAnchor(buf, a);
    assert !Meets(kvs, a, buf.cmps[a]);
  }

  lemma UnbufferedProgress(kvs: Kvs, lost: bool, wedged: bool)
    requires Progress(kvs, Empty, lost, wedged)
    ensures !lost && !wedged
  {
  }

  /** Two stores that hold the same file. */
  ghost predicate SameFile(ino: nat, kvs: Kvs, kvs': Kvs) {
    forall k :: InFile(k, ino) ==> (k in kvs' <==> k in kvs) && (k in kvs ==> kvs'[k] == kvs[k])
  }

  lemma SameFileAgrees(ino: nat, kvs: Kvs, kvs': Kvs, buf: Buffer, view: View)
    requires SameFile(ino, kvs, kvs') && Agrees(ino, kvs, buf, view)
    ensures Agrees(ino, kvs', buf, view)
  {
    forall k | InFile(k, ino) ensures AgreesAt(kvs', buf.ops, view, k) {
      assert AgreesAt(kvs, buf.ops, view, k);
    }
  }

  lemma SameFileMeets(ino: nat, kvs: Kvs, kvs': Kvs, buf: Buffer)
    requires SameFile(ino, kvs, kvs') && buf.cmps.Keys <= buf.ops.Keys
    requires forall k :: k in buf.ops ==> InFile(k, ino)
    ensures Passes(kvs', buf.cmps) <==> Passes(kvs, buf.cmps)
    ensures Refused(kvs, buf) ==> Refused(kvs', buf)
    ensures Landed(kvs, buf.ops) ==> Landed(kvs', buf.ops)
    ensures Unpublished(kvs, buf) ==> Unpublished(kvs', buf)
  {
    forall k | k in buf.cmps ensures Meets(kvs', k, buf.cmps[k]) == Meets(kvs, k, buf.cmps[k]) {
      assert k in buf.ops && InFile(k, ino);
    }
  }

  lemma BufferProgress(ino: nat, kvs: Kvs, buf: Buffer, view: View, i: Intent, lost: bool, wedged: bool)
    requires Agrees(ino, kvs, buf, view) && Topped(buf.ops, view) && WritePlan(ino, view, i)
    requires Progress(kvs, buf, lost, wedged)
    ensures Progress(kvs, Fold(buf, CmpsFor(view, i.checked), i.ops), lost, lost)
  {
    var a :| a in i.checked && Above(view, a) && i.ops[a].Put?;
    var buf' := Fold(buf, CmpsFor(view, i.checked), i.ops);
    CreatedIsNew(ino, kvs, buf, view, a);
    assert IsAnchor(buf', a);
    if lost {
      var k :| k in buf.cmps && k in buf.ops && !Meets(kvs, k, buf.cmps[k]);
      assert buf'.cmps[k] == buf.cmps[k] && k in buf'.ops;
      assert a in buf'.ops && a !in kvs;
    } else {
      BufferStaysReady(ino, kvs, buf, view, i);
    }
  }

  lemma LostProgress(kvs: Kvs, kvs': Kvs, buf: Buffer, lost: bool, wedged: bool)
    requires Progress(kvs, buf, lost, wedged) && buf != Empty && Passes(kvs, buf.cmps) && Landed(kvs', buf.ops)
    ensures !lost && !wedged && Progress(kvs', buf, true, false)
  {
    if lost {
      RefusedFails(kvs, buf);
      assert false;
    }
    LandedRefused(kvs', buf);
  }

  lemma SameFileProgress(ino: nat, kvs: Kvs, kvs': Kvs, buf: Buffer, lost: bool, wedged: bool)
    requires SameFile(ino, kvs, kvs') && buf.cmps.Keys <= buf.ops.Keys
    requires forall k :: k in buf.ops ==> InFile(k, ino)
    requires Progress(kvs, buf, lost, wedged)
    ensures Progress(kvs', buf, lost, wedged)
  {
    SameFileMeets(ino, kvs, kvs', buf);
  }

  /** The comparisons hold exactly while no reply was lost; after that the
      landed check holds exactly while nothing was buffered since. */
  lemma OutcomeOf(kvs: Kvs, buf: Buffer, lost: bool, wedged: bool)
    requires Progress(kvs, buf, lost, wedged)
    ensures Passes(kvs, buf.cmps) <==> !lost
    ensures lost ==> (LooksLanded(kvs, buf.ops) <==> !wedged)
    ensures lost && !wedged ==> Landed(kvs, buf.ops)
  {
    if lost {
      RefusedFails(kvs, buf);
      if wedged {
        var a :| a in buf.ops && a.ExtentKey? && buf.ops[a].Put? && a !in kvs;
        assert !LooksLanded(kvs, buf.ops);
      } else {
        var a :| IsAnchor(buf, a);
        assert LooksLanded(kvs, buf.ops);
      }
    }
  }

  // --- A commit that names no token ---------------------------------------------------

  /** A write that commits at once is compared with the records it rewrites, not
      with the lock key. If its node has lost the key, the new holder's buffer
      can still be flushed exactly if the commit touched nothing it compares. */
  lemma OutsideCommitIff(kvs: Kvs, buf: Buffer, ops: map<Key, Op>, rev: nat)
    requires Ready(kvs, buf) && Dated(kvs, rev) && forall k :: k in buf.cmps ==> !buf.cmps[k].Present?
    ensures Ready(Written(kvs, ops, rev + 1), buf)
            <==> forall k :: k in ops && k in buf.cmps ==> ops[k].Delete? && k !in kvs
  {
    var after := Written(kvs, ops, rev + 1);
    forall k | k in buf.cmps ensures Meets(after, k, buf.cmps[k]) <==> (k in ops ==> ops[k].Delete? && k !in kvs) {
      assert Meets(kvs, k, buf.cmps[k]);
    }
  }

  /** Two nodes that plan on the same record, the one without the key first:
      its comparisons hold, and the holder's acknowledged write cannot be
      flushed any more. */
  lemma OutsideCommitRefuses(ext: Extent) returns (kvs: Kvs, view: View, holder: Intent, other: Intent)
    ensures Dated(kvs, 1) && Agrees(1, kvs, Empty, view) && Within(holder, 1) && Within(other, 1)
    ensures Passes(kvs, CmpsFor(view, other.checked))
    ensures var buf := Fold(Empty, CmpsFor(view, holder.checked), holder.ops);
            Ready(kvs, buf) && !Passes(Written(kvs, other.ops, 2), buf.cmps)
  {
    var k := ExtentKey(1, 0);
    kvs := map[k := Kv(Stored(ext), 1, 1, 0)];
    view := map[k := Seen(Stored(ext), 1)];
    holder := Intent({k}, map[k := Delete]);
    other := Intent({k}, map[k := Put(Stored(ext), 0)]);
    var buf := Fold(Empty, CmpsFor(view, holder.checked), holder.ops);
    assert k in buf.cmps && !Meets(Written(kvs, other.ops, 2), k, buf.cmps[k]);
  }
}
