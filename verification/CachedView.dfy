/** The cached snapshot of a file under one held lock key, as its writes and
    flushes move it (internal/ipc/datapath.go apply, internal/ipc/delegate.go). */
module CachedView {
  import opened Common
  import opened Extents
  import opened Etcd
  import opened Deferred

  // --- The extent list ------------------------------------------------------

  ghost predicate HasChunk(es: seq<Extent>, c: nat) {
    exists i :: 0 <= i < |es| && es[i].chunk == c
  }

  /** `r` is the ordered list of the puts and of what neither they nor the
      deletes name. */
  ghost predicate Edited(list: seq<Extent>, dels: seq<nat>, puts: seq<Extent>, r: seq<Extent>) {
    && Ordered(r) && DistinctChunks(r)
    && forall e :: e in r <==> e in puts || (e in list && e.chunk !in dels && !HasChunk(puts, e.chunk))
  }

  /** Drops the extent with a chunk number, if the list has one. */
  method RemoveChunk(list: seq<Extent>, c: nat) returns (r: seq<Extent>)
    requires Ordered(list) && DistinctChunks(list)
    ensures Ordered(r) && DistinctChunks(r)
    ensures forall e :: e in r <==> e in list && e.chunk != c
  {
    for i := 0 to |list|
      invariant forall j :: 0 <= j < i ==> list[j].chunk != c
    {
      if list[i].chunk == c {
        CutKeepsOrder(list, i);
        CutOut(list, i);
        return list[..i] + list[i + 1..];
      }
    }
    return list;
  }

  lemma CutKeepsOrder(list: seq<Extent>, i: nat)
    requires Ordered(list) && DistinctChunks(list) && i < |list|
    ensures Ordered(list[..i] + list[i + 1..]) && DistinctChunks(list[..i] + list[i + 1..])
  {
    var r := list[..i] + list[i + 1..];
    forall j, k | 0 <= j < k < |r| ensures ExtentOrder(r[j], r[k]) <= 0 && r[j].chunk != r[k].chunk {
      var j', k' := if j < i then j else j + 1, if k < i then k else k + 1;
      assert r[j] == list[j'] && r[k] == list[k'] && j' < k';
    }
  }

  lemma CutOut(list: seq<Extent>, i: nat)
    requires DistinctChunks(list) && i < |list|
    ensures forall e :: e in list[..i] + list[i + 1..] <==> e in list && e.chunk != list[i].chunk
  {
    var r := list[..i] + list[i + 1..];
    forall e | e in list && e.chunk != list[i].chunk ensures e in r {
      var j :| 0 <= j < |list| && list[j] == e;
      assert j != i && e == if j < i then r[j] else r[j - 1];
    }
    forall e | e in r ensures e in list && e.chunk != list[i].chunk {
      var j :| 0 <= j < |r| && r[j] == e;
      var j' := if j < i then j else j + 1;
      assert e == list[j'] && j' != i;
    }
  }

  lemma PutApart(list: seq<Extent>, e: Extent, at: nat, i: nat, j: nat)
    requires DistinctChunks(list) && at <= |list| && !HasChunk(list, e.chunk) && i < j <= |list|
    ensures var r := list[..at] + [e] + list[at..]; r[i].chunk != r[j].chunk
  {
    var r := list[..at] + [e] + list[at..];
    if i == at {
      assert r[j] == list[j - 1];
    } else if j == at {
      assert r[i] == list[i];
    } else {
      assert r[i] == list[if i < at then i else i - 1] && r[j] == list[if j < at then j else j - 1];
    }
  }

  lemma PutIn(list: seq<Extent>, e: Extent, at: nat)
    requires DistinctChunks(list) && at <= |list| && !HasChunk(list, e.chunk)
    ensures var r := list[..at] + [e] + list[at..];
            DistinctChunks(r) && forall x :: x in r <==> x == e || x in list
  {
    var r := list[..at] + [e] + list[at..];
    forall i, j | 0 <= i < j < |r| ensures r[i].chunk != r[j].chunk {
      PutApart(list, e, at, i, j);
    }
    forall x ensures x in r <==> x == e || x in list {
      assert list == list[..at] + list[at..];
    }
  }

  /** Replays a transaction's deletes and puts on the cached list. */
  method Apply(list: seq<Extent>, dels: seq<nat>, puts: seq<Extent>) returns (r: seq<Extent>)
    requires Ordered(list) && DistinctChunks(list) && DistinctChunks(puts)
    ensures Edited(list, dels, puts, r)
  {
    r := list;
    for i := 0 to |dels|
      invariant Ordered(r) && DistinctChunks(r)
      invariant forall e :: e in r <==> e in list && e.chunk !in dels[..i]
    {
      r := RemoveChunk(r, dels[i]);
      assert dels[..i + 1] == dels[..i] + [dels[i]];
    }
    assert dels[..|dels|] == dels;
    for i := 0 to |puts|
      invariant Edited(list, dels, puts[..i], r)
    {
      assert puts[..i + 1] == puts[..i] + [puts[i]];
      var rest := RemoveChunk(r, puts[i].chunk);
      ghost var at;
      r, at := InsertExtent(rest, puts[i]);
      PutIn(rest, puts[i], at);
      EditOneMore(list, dels, puts, i, rest, r);
    }
    assert puts[..|puts|] == puts;
  }

  lemma EditOneMore(list: seq<Extent>, dels: seq<nat>, puts: seq<Extent>, i: nat, rest: seq<Extent>, r: seq<Extent>)
    requires DistinctChunks(puts) && i < |puts| && Ordered(r) && DistinctChunks(r)
    requires forall e :: e in rest <==>
               (e in puts[..i] || (e in list && e.chunk !in dels && !HasChunk(puts[..i], e.chunk)))
               && e.chunk != puts[i].chunk
    requires forall x :: x in r <==> x == puts[i] || x in rest
    ensures Edited(list, dels, puts[..i + 1], r)
  {
    var more := puts[..i + 1];
    assert more == puts[..i] + [puts[i]];
    forall c ensures HasChunk(more, c) <==> HasChunk(puts[..i], c) || c == puts[i].chunk {
      if HasChunk(puts[..i], c) {
        var j :| 0 <= j < i && puts[j].chunk == c;
        assert more[j].chunk == c;
      }
      assert more[i].chunk == puts[i].chunk;
    }
    forall e | e in puts[..i] ensures e.chunk != puts[i].chunk {
    }
  }

  // --- The list and the view ----------------------------------------------

  /** An extent key holds an extent of that chunk, the inode key a record. */
  predicate Typed(ops: map<Key, Op>) {
    forall k :: k in ops && ops[k].Put? ==>
      if k.ExtentKey? then ops[k].value.Stored? && ops[k].value.ext.chunk == k.chunk else ops[k].value.Record?
  }

  /** The list is the view's extents in resolution order. */
  ghost predicate Shows(ino: nat, view: View, list: seq<Extent>) {
    && Ordered(list) && DistinctChunks(list)
    && (forall e :: e in list ==> ExtentKey(ino, e.chunk) in view && view[ExtentKey(ino, e.chunk)].value == Stored(e))
    && (forall c :: ExtentKey(ino, c) in view ==>
          var v := view[ExtentKey(ino, c)].value; v.Stored? && v.ext.chunk == c && v.ext in list)
  }

  /** The deletes and puts a transaction decodes to. */
  ghost predicate Decodes(ino: nat, ops: map<Key, Op>, dels: seq<nat>, puts: seq<Extent>) {
    && DistinctChunks(puts)
    && (forall c :: c in dels <==> ExtentKey(ino, c) in ops && ops[ExtentKey(ino, c)].Delete?)
    && (forall e :: e in puts ==> ExtentKey(ino, e.chunk) in ops && ops[ExtentKey(ino, e.chunk)].Put?
                                  && ops[ExtentKey(ino, e.chunk)].value == Stored(e))
    && (forall c :: ExtentKey(ino, c) in ops && ops[ExtentKey(ino, c)].Put? ==>
          var v := ops[ExtentKey(ino, c)].value; v.Stored? && v.ext.chunk == c && v.ext in puts)
  }

  ghost predicate EditedBy(ino: nat, list: seq<Extent>, ops: map<Key, Op>, r: seq<Extent>) {
    exists dels, puts :: Decodes(ino, ops, dels, puts) && Edited(list, dels, puts, r)
  }

  /** Replaying a transaction on the list and on the view is one thing. */
  lemma ApplyShows(ino: nat, view: View, list: seq<Extent>, ops: map<Key, Op>, rev: nat, r: seq<Extent>)
    requires Shows(ino, view, list) && EditedBy(ino, list, ops, r)
    ensures Shows(ino, Replay(view, ops, rev), r)
  {
    var dels, puts :| Decodes(ino, ops, dels, puts) && Edited(list, dels, puts, r);
    var view' := Replay(view, ops, rev);
    forall e | e in r ensures ExtentKey(ino, e.chunk) in view' && view'[ExtentKey(ino, e.chunk)].value == Stored(e) {
      var k := ExtentKey(ino, e.chunk);
      if e !in puts {
        NotPut(ino, ops, dels, puts, e.chunk);
      }
    }
    forall c | ExtentKey(ino, c) in view'
      ensures var v := view'[ExtentKey(ino, c)].value; v.Stored? && v.ext.chunk == c && v.ext in r
    {
      if ExtentKey(ino, c) !in ops {
        NoOp(ino, ops, dels, puts, c);
      }
    }
  }

  lemma NotPut(ino: nat, ops: map<Key, Op>, dels: seq<nat>, puts: seq<Extent>, c: nat)
    requires Decodes(ino, ops, dels, puts) && c !in dels && !HasChunk(puts, c)
    ensures ExtentKey(ino, c) !in ops
  {
  }

  lemma NoOp(ino: nat, ops: map<Key, Op>, dels: seq<nat>, puts: seq<Extent>, c: nat)
    requires Decodes(ino, ops, dels, puts) && ExtentKey(ino, c) !in ops
    ensures c !in dels && !HasChunk(puts, c)
  {
  }

  /** The value a key has once the buffered operations are over it. */
  function Overlaid(kvs: Kvs, ops: map<Key, Op>, k: Key): Option<Value> {
    if k in ops then if ops[k].Put? then Some(ops[k].value) else None
    else if k in kvs then Some(kvs[k].value) else None
  }

  /** A list decoded and sorted from etcd under the buffered operations. */
  ghost predicate FreshDecode(ino: nat, kvs: Kvs, ops: map<Key, Op>, list: seq<Extent>) {
    && Ordered(list) && DistinctChunks(list)
    && forall e :: e in list <==> Overlaid(kvs, ops, ExtentKey(ino, e.chunk)) == Some(Stored(e))
  }

  lemma ShowsFreshDecode(ino: nat, kvs: Kvs, buf: Buffer, view: View, list: seq<Extent>, decoded: seq<Extent>)
    requires Agrees(ino, kvs, buf, view) && Shows(ino, view, list) && FreshDecode(ino, kvs, buf.ops, decoded)
    ensures list == decoded
  {
    forall e ensures e in list <==> e in decoded {
      var k := ExtentKey(ino, e.chunk);
      assert InFile(k, ino) && AgreesAt(kvs, buf.ops, view, k);
    }
    OrderedIsCanonical(list, decoded);
  }

  // --- Every run under one held key -----------------------------------------

  /** The node's side and etcd's side of one held file. `lost` says a flush
      committed without the node learning of it, `wedged` that a write was
      buffered after that. */
  datatype Cache = Cache(kvs: Kvs, rev: nat, buf: Buffer, view: View, list: seq<Extent>, lost: bool, wedged: bool)

  datatype Step =
    | BufferWrite(i: Intent)
    | SyncWrite(i: Intent)
    | Flush
    | FlushLost
    | Adopt
    | Elsewhere

  ghost predicate Next(ino: nat, s: Cache, step: Step, s': Cache) {
    match step
    case BufferWrite(i) =>
      && WritePlan(ino, s.view, i) && Typed(i.ops)
      && EditedBy(ino, s.list, i.ops, s'.list)
      && s' == s.(buf := Fold(s.buf, CmpsFor(s.view, i.checked), i.ops), view := Replay(s.view, i.ops, 0),
                  list := s'.list, wedged := s.lost)
    case SyncWrite(i) =>
      && s.buf == Empty && WritePlan(ino, s.view, i) && Typed(i.ops) && Passes(s.kvs, CmpsFor(s.view, i.checked))
      && EditedBy(ino, s.list, i.ops, s'.list)
      && s' == s.(kvs := Written(s.kvs, i.ops, s.rev + 1), rev := s.rev + 1,
                  view := Replay(s.view, i.ops, s.rev + 1), list := s'.list)
    case Flush =>
      && s.buf != Empty && Passes(s.kvs, s.buf.cmps)
      && s' == s.(kvs := Written(s.kvs, s.buf.ops, s.rev + 1), rev := s.rev + 1, buf := Empty,
                  view := Refresh(s.view, PutRevs(s.buf.ops, s.rev + 1)), lost := false, wedged := false)
    case FlushLost =>
      && s.buf != Empty && Passes(s.kvs, s.buf.cmps)
      && s' == s.(kvs := Written(s.kvs, s.buf.ops, s.rev + 1), rev := s.rev + 1, lost := true)
    case Adopt =>
      && s.buf != Empty && !Passes(s.kvs, s.buf.cmps) && LooksLanded(s.kvs, s.buf.ops)
      && s' == s.(buf := Empty, view := Refresh(s.view, PublishedRevs(s.kvs, ino)), lost := false, wedged := false)
    case Elsewhere =>
      && SameFile(ino, s.kvs, s'.kvs)
      && s.rev <= s'.rev && Dated(s'.kvs, s'.rev)
      && s' == s.(kvs := s'.kvs, rev := s'.rev)
  }

  /** The cached view and list describe etcd under the buffer. */
  ghost predicate Truthful(ino: nat, s: Cache) {
    && Dated(s.kvs, s.rev)
    && Agrees(ino, s.kvs, s.buf, s.view) && Shows(ino, s.view, s.list)
  }

  ghost predicate Inv(ino: nat, s: Cache) {
    && Truthful(ino, s)
    && s.buf.cmps.Keys <= s.buf.ops.Keys && Topped(s.buf.ops, s.view)
    && Progress(s.kvs, s.buf, s.lost, s.wedged)
  }

  ghost predicate Init(ino: nat, s: Cache) {
    s.buf == Empty && !s.lost && !s.wedged && Dated(s.kvs, s.rev)
    && Agrees(ino, s.kvs, Empty, s.view) && Shows(ino, s.view, s.list)
  }

  lemma BufferInv(ino: nat, s: Cache, i: Intent, s': Cache)
    requires Inv(ino, s) && Next(ino, s, BufferWrite(i), s')
    ensures Inv(ino, s')
  {
    BufferKeeps(ino, s.kvs, s.buf, s.view, i);
    ApplyShows(ino, s.view, s.list, i.ops, 0, s'.list);
    ToppedAfter(ino, s.buf.ops, s.view, i);
    BufferProgress(ino, s.kvs, s.buf, s.view, i, s.lost, s.wedged);
  }

  lemma InvUnbuffered(ino: nat, s: Cache)
    requires Truthful(ino, s) && s.buf == Empty && !s.lost && !s.wedged
    ensures Inv(ino, s)
  {
  }

  lemma SyncTruthful(ino: nat, s: Cache, i: Intent, s': Cache)
    requires Truthful(ino, s) && Next(ino, s, SyncWrite(i), s')
    ensures Truthful(ino, s')
  {
    SyncKeeps(ino, s.kvs, s.view, i, s.rev + 1);
    ApplyShows(ino, s.view, s.list, i.ops, s.rev + 1, s'.list);
    WrittenDated(s.kvs, i.ops, s.rev);
  }

  lemma SyncInv(ino: nat, s: Cache, i: Intent, s': Cache)
    requires Inv(ino, s) && Next(ino, s, SyncWrite(i), s')
    ensures Inv(ino, s')
  {
    UnbufferedProgress(s.kvs, s.lost, s.wedged);
    SyncTruthful(ino, s, i, s');
    InvUnbuffered(ino, s');
  }

  lemma RefreshShows(ino: nat, view: View, list: seq<Extent>, revs: map<Key, nat>)
    requires Shows(ino, view, list)
    ensures Shows(ino, Refresh(view, revs), list)
  {
  }

  lemma FlushInv(ino: nat, s: Cache, s': Cache)
    requires Truthful(ino, s) && Next(ino, s, Flush, s')
    ensures Inv(ino, s')
  {
    FlushKeeps(ino, s.kvs, s.buf, s.view, s.rev + 1);
    RefreshShows(ino, s.view, s.list, PutRevs(s.buf.ops, s.rev + 1));
    WrittenDated(s.kvs, s.buf.ops, s.rev);
    InvUnbuffered(ino, s');
  }

  lemma FlushLostTruthful(ino: nat, s: Cache, s': Cache)
    requires Truthful(ino, s) && Next(ino, s, FlushLost, s')
    ensures Truthful(ino, s') && Landed(s'.kvs, s'.buf.ops)
  {
    LostFlushKeeps(ino, s.kvs, s.buf, s.view, s.rev + 1);
    WrittenDated(s.kvs, s.buf.ops, s.rev);
  }

  lemma FlushLostInv(ino: nat, s: Cache, s': Cache)
    requires Inv(ino, s) && Next(ino, s, FlushLost, s')
    ensures Inv(ino, s')
  {
    FlushLostTruthful(ino, s, s');
    LostProgress(s.kvs, s'.kvs, s.buf, s.lost, s.wedged);
  }

  lemma AdoptInv(ino: nat, s: Cache, s': Cache)
    requires Inv(ino, s) && Next(ino, s, Adopt, s')
    ensures Inv(ino, s')
  {
    OutcomeOf(s.kvs, s.buf, s.lost, s.wedged);
    AdoptKeeps(ino, s.kvs, s.buf, s.view);
    RefreshShows(ino, s.view, s.list, PublishedRevs(s.kvs, ino));
    InvUnbuffered(ino, s');
  }

  lemma ElsewhereInv(ino: nat, s: Cache, s': Cache)
    requires Inv(ino, s) && Next(ino, s, Elsewhere, s')
    ensures Inv(ino, s')
  {
    SameFileAgrees(ino, s.kvs, s'.kvs, s.buf, s.view);
    SameFileProgress(ino, s.kvs, s'.kvs, s.buf, s.lost, s.wedged);
  }

  lemma StepInv(ino: nat, s: Cache, step: Step, s': Cache)
    requires Inv(ino, s) && Next(ino, s, step, s')
    ensures Inv(ino, s')
  {
    match step
    case BufferWrite(i) => BufferInv(ino, s, i, s');
    case SyncWrite(i) => SyncInv(ino, s, i, s');
    case Flush => FlushInv(ino, s, s');
    case FlushLost => FlushLostInv(ino, s, s');
    case Adopt => AdoptInv(ino, s, s');
    case Elsewhere => ElsewhereInv(ino, s, s');
  }

  ghost predicate StepAt(ino: nat, run: seq<Cache>, steps: seq<Step>, i: nat)
    requires i < |steps| && i + 1 < |run|
  {
    Next(ino, run[i], steps[i], run[i + 1])
  }

  ghost predicate IsRun(ino: nat, run: seq<Cache>, steps: seq<Step>) {
    && |run| == |steps| + 1 && Init(ino, run[0])
    && forall i :: 0 <= i < |steps| ==> StepAt(ino, run, steps, i)
  }

  lemma {:induction false} RunInv(ino: nat, run: seq<Cache>, steps: seq<Step>, t: nat)
    requires IsRun(ino, run, steps) && t < |run|
    ensures Inv(ino, run[t])
  {
    if t > 0 {
      RunInv(ino, run, steps, t - 1);
      assert StepAt(ino, run, steps, t - 1);
      StepInv(ino, run[t - 1], steps[t - 1], run[t]);
    }
  }

  /** At every point of every run the cached list is the sorted decoding of
      etcd's extents under the buffered operations, and each cached revision of
      an extent the buffer does not own is etcd's. */
  lemma CachedViewIsTrue(ino: nat, run: seq<Cache>, steps: seq<Step>, t: nat, decoded: seq<Extent>)
    requires IsRun(ino, run, steps) && t < |run|
    requires FreshDecode(ino, run[t].kvs, run[t].buf.ops, decoded)
    ensures run[t].list == decoded
    ensures forall c :: ExtentKey(ino, c) in run[t].kvs && ExtentKey(ino, c) !in run[t].buf.ops ==>
              var k := ExtentKey(ino, c); k in run[t].view && run[t].view[k].rev == run[t].kvs[k].mod
    ensures Overlaid(run[t].kvs, run[t].buf.ops, InodeKey(ino))
            == if InodeKey(ino) in run[t].view then Some(run[t].view[InodeKey(ino)].value) else None
  {
    var s := run[t];
    RunInv(ino, run, steps, t);
    ShowsFreshDecode(ino, s.kvs, s.buf, s.view, s.list, decoded);
    forall c | ExtentKey(ino, c) in s.kvs && ExtentKey(ino, c) !in s.buf.ops
      ensures var k := ExtentKey(ino, c); k in s.view && s.view[k].rev == s.kvs[k].mod
    {
      assert InFile(ExtentKey(ino, c), ino);
    }
    assert AgreesAt(s.kvs, s.buf.ops, s.view, InodeKey(ino));
  }

  /** A flush of what is buffered committed without the node learning of it. */
  predicate Lost(steps: seq<Step>) {
    if steps == [] then false
    else
      match steps[|steps| - 1]
      case FlushLost => true
      case Flush => false
      case Adopt => false
      case _ => Lost(steps[..|steps| - 1])
  }

  /** ... and a write joined the buffer after that. */
  predicate Wedged(steps: seq<Step>) {
    if steps == [] then false
    else
      match steps[|steps| - 1]
      case BufferWrite(_) => Lost(steps[..|steps| - 1])
      case Flush => false
      case Adopt => false
      case _ => Wedged(steps[..|steps| - 1])
  }

  lemma {:induction false} FlagsAre(ino: nat, run: seq<Cache>, steps: seq<Step>, t: nat)
    requires IsRun(ino, run, steps) && t < |run|
    ensures run[t].lost == Lost(steps[..t]) && run[t].wedged == Wedged(steps[..t])
  {
    if t > 0 {
      FlagsAre(ino, run, steps, t - 1);
      assert steps[..t][..t - 1] == steps[..t - 1];
      assert StepAt(ino, run, steps, t - 1);
    }
  }

  /** A flush is rejected exactly when an earlier one committed unnoticed; a
      rejected one is recognised as landed exactly when nothing was buffered
      since; and from then on nothing of it is ever published or adopted. */
  lemma FlushOutcome(ino: nat, run: seq<Cache>, steps: seq<Step>, t: nat)
    requires IsRun(ino, run, steps) && t < |run|
    ensures Passes(run[t].kvs, run[t].buf.cmps) <==> !Lost(steps[..t])
    ensures Lost(steps[..t]) ==> (LooksLanded(run[t].kvs, run[t].buf.ops) <==> !Wedged(steps[..t]))
    ensures t < |steps| && Wedged(steps[..t]) ==> Wedged(steps[..t + 1])
  {
    RunInv(ino, run, steps, t);
    OutcomeOf(run[t].kvs, run[t].buf, run[t].lost, run[t].wedged);
    FlagsAre(ino, run, steps, t);
    if t < |steps| {
      FlagsAre(ino, run, steps, t + 1);
      assert StepAt(ino, run, steps, t);
    }
  }

  // --- A buffer that is refused for good ---------------------------------------------

  /** A write that adds one extent. */
  function Adds(ino: nat, e: Extent): Intent {
    Intent({ExtentKey(ino, e.chunk)}, map[ExtentKey(ino, e.chunk) := Put(Stored(e), 0)])
  }

  lemma AddEdits(ino: nat, list: seq<Extent>, e: Extent, r: seq<Extent>)
    requires Ordered(r) && DistinctChunks(r) && r == list + [e]
    ensures EditedBy(ino, list, Adds(ino, e).ops, r)
  {
    var puts := [e];
    assert Decodes(ino, Adds(ino, e).ops, [], puts);
    forall x ensures x in r <==> x in puts || (x in list && !HasChunk(puts, x.chunk)) {
      assert forall i :: 0 <= i < |list| ==> r[i] == list[i] && list[i].chunk != r[|list|].chunk;
    }
    assert Edited(list, [], puts, r);
  }

  lemma AddPlans(ino: nat, view: View, e: Extent)
    requires forall k :: k in view && k.ExtentKey? ==> k.chunk < e.chunk
    ensures WritePlan(ino, view, Adds(ino, e)) && Typed(Adds(ino, e).ops)
  {
    var k := ExtentKey(ino, e.chunk);
    assert k in Adds(ino, e).checked && Above(view, k);
  }

  lemma Joins(ino: nat, s: Cache, e: Extent) returns (s': Cache)
    requires forall k :: k in s.view && k.ExtentKey? ==> k.chunk < e.chunk
    requires Ordered(s.list + [e]) && DistinctChunks(s.list + [e])
    ensures Next(ino, s, BufferWrite(Adds(ino, e)), s')
    ensures s'.kvs == s.kvs && s'.rev == s.rev && s'.list == s.list + [e]
    ensures s'.buf == Fold(s.buf, CmpsFor(s.view, Adds(ino, e).checked), Adds(ino, e).ops)
    ensures s'.view == Replay(s.view, Adds(ino, e).ops, 0)
  {
    var i := Adds(ino, e);
    AddPlans(ino, s.view, e);
    AddEdits(ino, s.list, e, s.list + [e]);
    s' := s.(buf := Fold(s.buf, CmpsFor(s.view, i.checked), i.ops), view := Replay(s.view, i.ops, 0),
             list := s.list + [e], wedged := s.lost);
  }

  function Last(run: seq<Cache>): Cache
    requires run != []
  {
    run[|run| - 1]
  }

  lemma OneMore(ino: nat, run: seq<Cache>, steps: seq<Step>, step: Step, s': Cache)
    requires IsRun(ino, run, steps) && Next(ino, Last(run), step, s')
    ensures IsRun(ino, run + [s'], steps + [step])
  {
    var run', steps' := run + [s'], steps + [step];
    forall i | 0 <= i < |steps'| ensures StepAt(ino, run', steps', i) {
      if i < |steps| {
        assert StepAt(ino, run, steps, i);
      }
    }
  }

  /** One more extent is written at the end of the file, and buffered. */
  lemma ThenJoins(ino: nat, run: seq<Cache>, steps: seq<Step>, e: Extent) returns (s': Cache)
    requires IsRun(ino, run, steps) && forall k :: k in Last(run).view && k.ExtentKey? ==> k.chunk < e.chunk
    requires Ordered(Last(run).list + [e]) && DistinctChunks(Last(run).list + [e])
    ensures IsRun(ino, run + [s'], steps + [BufferWrite(Adds(ino, e))])
  {
    s' := Joins(ino, Last(run), e);
    OneMore(ino, run, steps, BufferWrite(Adds(ino, e)), s');
  }

  /** The buffer is flushed, and the reply is lost. */
  lemma ThenLoses(ino: nat, run: seq<Cache>, steps: seq<Step>) returns (s': Cache)
    requires IsRun(ino, run, steps) && Last(run).buf != Empty && Passes(Last(run).kvs, Last(run).buf.cmps)
    ensures IsRun(ino, run + [s'], steps + [FlushLost])
    ensures s'.view == Last(run).view && s'.list == Last(run).list
  {
    var s := Last(run);
    s' := s.(kvs := Written(s.kvs, s.buf.ops, s.rev + 1), rev := s.rev + 1, lost := true);
    OneMore(ino, run, steps, FlushLost, s');
  }

  /** A first write into an empty cache can be flushed. */
  lemma FirstJoins(ino: nat, e: Extent) returns (run: seq<Cache>)
    ensures IsRun(ino, run, [BufferWrite(Adds(ino, e))]) && Last(run).list == [e]
    ensures Last(run).buf != Empty && Passes(Last(run).kvs, Last(run).buf.cmps)
    ensures forall k :: k in Last(run).view ==> k == ExtentKey(ino, e.chunk)
  {
    var s := Cache(map[], 0, Empty, map[], [], false, false);
    assert [] + [e] == [e];
    var s' := Joins(ino, s, e);
    assert ExtentKey(ino, e.chunk) in s'.buf.ops;
    OneMore(ino, [s], [], BufferWrite(Adds(ino, e)), s');
    assert [] + [BufferWrite(Adds(ino, e))] == [BufferWrite(Adds(ino, e))];
    run := [s] + [s'];
  }

  lemma ThreeWedge(i: Intent, j: Intent)
    ensures var steps := [BufferWrite(i), FlushLost, BufferWrite(j)]; Lost(steps[..3]) && Wedged(steps[..3])
  {
    var steps := [BufferWrite(i), FlushLost, BufferWrite(j)];
    assert steps[..3][..2] == [BufferWrite(i), FlushLost];
    assert Lost(steps[..3][..2]);
  }

  /** Buffer a write, lose the reply to its flush, buffer another: the buffer is
      rejected, and not recognised as landed, although nobody else wrote. */
  lemma WedgeHappens(ino: nat, node: Node) returns (run: seq<Cache>, steps: seq<Step>)
    ensures IsRun(ino, run, steps) && |steps| == 3
    ensures steps[0].BufferWrite? && steps[1] == FlushLost && steps[2].BufferWrite?
    ensures !Passes(run[3].kvs, run[3].buf.cmps) && !LooksLanded(run[3].kvs, run[3].buf.ops)
  {
    var a, b := Extent(0, 0, node, 1, 0, 0, BLOCK), Extent(1, 1, node, 1, BLOCK, BLOCK, BLOCK);
    var one, two := BufferWrite(Adds(ino, a)), BufferWrite(Adds(ino, b));
    run := FirstJoins(ino, a);
    steps := [one];
    var s2 := ThenLoses(ino, run, steps);
    run, steps := run + [s2], steps + [FlushLost];
    assert [a] + [b] == [a, b];
    var s3 := ThenJoins(ino, run, steps, b);
    run, steps := run + [s3], steps + [two];
    assert steps == [one, FlushLost, two];
    ThreeWedge(Adds(ino, a), Adds(ino, b));
    FlushOutcome(ino, run, steps, 3);
  }
}
