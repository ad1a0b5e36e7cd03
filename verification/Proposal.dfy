/** The write object and the loops that build its transaction
    (internal/ipc/writeop.go). */
module Proposals {
  import opened Common
  import opened Extents
  import opened WritePath
  import ReadBack
  import opened Etcd
  import opened Deferred
  import opened PendingWrites
  import opened CachedView
  import opened WriteOps

  // --- Growing a transaction ---------------------------------------------------------

  ghost predicate KeysApart<T>(a: seq<(Key, T)>, b: seq<(Key, T)>) {
    forall x, y :: x in a && y in b ==> x.0 != y.0
  }

  lemma JoinKeys<T>(a: seq<(Key, T)>, b: seq<(Key, T)>)
    requires DistinctKeys(a) && DistinctKeys(b) && KeysApart(a, b)
    ensures DistinctKeys(a + b)
  {
    var c := a + b;
    forall i, j | 0 <= i < j < |c| ensures c[i].0 != c[j].0 {
      if i < |a| <= j {
        assert c[i] in a && c[j] in b;
      }
    }
  }

  /** Two transactions on different keys make one. */
  lemma JoinTransactions(ino: nat, ops: seq<(Key, Op)>, dels: seq<nat>, puts: seq<Extent>, size: Option<nat>,
                         ops': seq<(Key, Op)>, dels': seq<nat>, puts': seq<Extent>, size': Option<nat>)
    requires Transaction(ino, ops, dels, puts, size) && Transaction(ino, ops', dels', puts', size')
    requires KeysApart(ops, ops') && (size.None? || size'.None?)
    ensures Transaction(ino, ops + ops', dels + dels', puts + puts', if size.Some? then size else size')
  {
    JoinKeys(ops, ops');
    forall x ensures x in ops + ops' <==>
                     Says(ino, dels + dels', puts + puts', if size.Some? then size else size', x)
    {
      assert x in ops <==> Says(ino, dels, puts, size, x);
      assert x in ops' <==> Says(ino, dels', puts', size', x);
    }
  }

  /** A put for every extent. */
  function PutsOf(ino: nat, es: seq<Extent>): seq<(Key, Op)> {
    seq(|es|, i requires 0 <= i < |es| => (ExtentKey(ino, es[i].chunk), Put(Stored(es[i]), 0)))
  }

  lemma PutsAre(ino: nat, es: seq<Extent>)
    requires DistinctChunks(es)
    ensures Transaction(ino, PutsOf(ino, es), [], es, None)
  {
    var ops := PutsOf(ino, es);
    forall x ensures x in ops <==> Says(ino, [], es, None, x) {
      if Says(ino, [], es, None, x) {
        var i :| 0 <= i < |es| && es[i] == x.1.value.ext;
        assert ops[i] == x;
      }
    }
  }

  lemma RecordIs(ino: nat, size: nat)
    ensures Transaction(ino, [(InodeKey(ino), Put(Record(size), 0))], [], [], Some(size))
  {
    var ops := [(InodeKey(ino), Put(Record(size), 0))];
    forall x ensures x in ops <==> Says(ino, [], [], Some(size), x) {
    }
  }

  /** The operations of one plan. */
  function OpsOf(ino: nat, ext: Extent, p: Plan): seq<(Key, Op)> {
    if p.puts == [] then [(ExtentKey(ino, ext.chunk), Delete)] else PutsOf(ino, p.puts)
  }

  lemma OpsAre(ino: nat, ext: Extent, p: Plan)
    requires DistinctChunks(p.puts)
    ensures Transaction(ino, OpsOf(ino, ext, p), if p.puts == [] then [ext.chunk] else [], p.puts, None)
  {
    if p.puts == [] {
      var ops := OpsOf(ino, ext, p);
      forall x ensures x in ops <==> Says(ino, [ext.chunk], [], None, x) {
      }
    } else {
      PutsAre(ino, p.puts);
    }
  }

  /** Every key a transaction names is one of its chunks or the inode. */
  lemma ChunksApart(ino: nat, ops: seq<(Key, Op)>, dels: seq<nat>, puts: seq<Extent>, size: Option<nat>,
                    ops': seq<(Key, Op)>, dels': seq<nat>, puts': seq<Extent>)
    requires Transaction(ino, ops, dels, puts, size) && Transaction(ino, ops', dels', puts', None)
    requires forall c :: c in dels' || HasChunk(puts', c) ==> c !in dels && !HasChunk(puts, c)
    ensures KeysApart(ops, ops')
  {
    forall x, y | x in ops && y in ops' ensures x.0 != y.0 {
      assert Says(ino, dels, puts, size, x) && Says(ino, dels', puts', None, y);
      NamesChunk(ino, dels, puts, size, x);
      NamesChunk(ino, dels', puts', None, y);
    }
  }

  lemma NamesChunk(ino: nat, dels: seq<nat>, puts: seq<Extent>, size: Option<nat>, x: (Key, Op))
    requires Says(ino, dels, puts, size, x)
    ensures if size.None? then x.0.ExtentKey? else x.0.ExtentKey? || x.0.InodeKey?
    ensures x.0.ExtentKey? ==> x.0.chunk in dels || HasChunk(puts, x.0.chunk)
  {
    if x.0.ExtentKey? && x.1.Put? {
      var i :| 0 <= i < |puts| && puts[i] == x.1.value.ext;
    }
  }

  // --- One extent more ----------------------------------------------------------------

  function NextAfter(arenas: set<nat>, es: seq<Extent>, start: nat, end: nat, next: nat): nat {
    if es == [] then next
    else NextAfter(arenas, es[1..], start, end, NextChunk(arenas, es[0], start, end, next))
  }

  /** What planning one extent adds to each list. */
  function Rewrites(arenas: set<nat>, e: Extent, start: nat, end: nat, next: nat): seq<Extent> {
    var p := PlanFor(arenas, e, start, end, next);
    if p.Some? then p.value.puts else []
  }

  function Removes(arenas: set<nat>, e: Extent, start: nat, end: nat, next: nat): seq<nat> {
    var p := PlanFor(arenas, e, start, end, next);
    if p.Some? && p.value.puts == [] then [e.chunk] else []
  }

  function Compares(arenas: set<nat>, e: Extent, start: nat, end: nat, next: nat): seq<nat> {
    if PlanFor(arenas, e, start, end, next).Some? then [e.chunk] else []
  }

  lemma {:induction false} SnocRewritten(arenas: set<nat>, es: seq<Extent>, e: Extent, start: nat, end: nat, next: nat)
    ensures Rewritten(arenas, es + [e], start, end, next)
            == Rewritten(arenas, es, start, end, next) + Rewrites(arenas, e, start, end, NextAfter(arenas, es, start, end, next))
  {
    if es == [] {
      assert es + [e] == [e];
    } else {
      assert (es + [e])[0] == es[0] && (es + [e])[1..] == es[1..] + [e];
      SnocRewritten(arenas, es[1..], e, start, end, NextChunk(arenas, es[0], start, end, next));
    }
  }

  lemma {:induction false} SnocRemoved(arenas: set<nat>, es: seq<Extent>, e: Extent, start: nat, end: nat, next: nat)
    ensures Removed(arenas, es + [e], start, end, next)
            == Removed(arenas, es, start, end, next) + Removes(arenas, e, start, end, NextAfter(arenas, es, start, end, next))
  {
    if es == [] {
      assert es + [e] == [e];
    } else {
      assert (es + [e])[0] == es[0] && (es + [e])[1..] == es[1..] + [e];
      SnocRemoved(arenas, es[1..], e, start, end, NextChunk(arenas, es[0], start, end, next));
    }
  }

  lemma {:induction false} SnocCompared(arenas: set<nat>, es: seq<Extent>, e: Extent, start: nat, end: nat, next: nat)
    ensures Compared(arenas, es + [e], start, end, next)
            == Compared(arenas, es, start, end, next) + Compares(arenas, e, start, end, NextAfter(arenas, es, start, end, next))
  {
    if es == [] {
      assert es + [e] == [e];
    } else {
      assert (es + [e])[0] == es[0] && (es + [e])[1..] == es[1..] + [e];
      SnocCompared(arenas, es[1..], e, start, end, NextChunk(arenas, es[0], start, end, next));
    }
  }

  lemma {:induction false} SnocNext(arenas: set<nat>, es: seq<Extent>, e: Extent, start: nat, end: nat, next: nat)
    ensures NextAfter(arenas, es + [e], start, end, next)
            == NextChunk(arenas, e, start, end, NextAfter(arenas, es, start, end, next))
  {
    if es == [] {
      assert es + [e] == [e];
    } else {
      assert (es + [e])[0] == es[0] && (es + [e])[1..] == es[1..] + [e];
      SnocNext(arenas, es[1..], e, start, end, NextChunk(arenas, es[0], start, end, next));
    }
  }

  lemma {:induction false} SnocFreed(arenas: set<nat>, es: seq<Extent>, e: Extent, start: nat, end: nat)
    ensures AllFreed(arenas, es + [e], start, end) == AllFreed(arenas, es, start, end) + Freed(arenas, e, start, end)
  {
    if es == [] {
      assert es + [e] == [e];
    } else {
      assert (es + [e])[0] == es[0] && (es + [e])[1..] == es[1..] + [e];
      SnocFreed(arenas, es[1..], e, start, end);
    }
  }

  /** The transaction of `w` once the extents of `es` have been planned for. */
  ghost predicate OpsPlanned(arenas: set<nat>, ino: nat, es: seq<Extent>, w: Write, size: Option<nat>, ops: seq<(Key, Op)>) {
    var first := w.chunk + |w.runs|;
    Transaction(ino, ops, Removed(arenas, es, w.off, w.End(), first),
                w.New() + Rewritten(arenas, es, w.off, w.End(), first), size)
  }

  ghost predicate CmpsPlanned(arenas: set<nat>, ino: nat, es: seq<Extent>, w: Write, revs: map<nat, nat>, cmps: seq<(Key, Cmp)>) {
    var first := w.chunk + |w.runs|;
    Comparisons(ino, cmps, w.chunk, first, Compared(arenas, es, w.off, w.End(), first), revs)
  }

  lemma GrowTransaction(ino: nat, ops: seq<(Key, Op)>, dels: seq<nat>, puts: seq<Extent>, size: Option<nat>, e: Extent, p: Plan)
    requires Transaction(ino, ops, dels, puts, size) && DistinctChunks(puts + p.puts)
    requires e.chunk !in dels && !HasChunk(puts, e.chunk) && forall q :: q in p.puts ==> q.chunk !in dels
    ensures Transaction(ino, ops + OpsOf(ino, e, p), dels + (if p.puts == [] then [e.chunk] else []), puts + p.puts, size)
  {
    var all := puts + p.puts;
    forall i, j | 0 <= i < j < |p.puts| ensures p.puts[i].chunk != p.puts[j].chunk {
      assert all[|puts| + i] == p.puts[i] && all[|puts| + j] == p.puts[j];
    }
    OpsAre(ino, e, p);
    forall c | HasChunk(p.puts, c) ensures c !in dels && !HasChunk(puts, c) {
      var j :| 0 <= j < |p.puts| && p.puts[j].chunk == c;
      assert p.puts[j] in p.puts && all[|puts| + j] == p.puts[j];
      assert forall i :: 0 <= i < |puts| ==> all[i] == puts[i];
    }
    ChunksApart(ino, ops, dels, puts, size, OpsOf(ino, e, p), if p.puts == [] then [e.chunk] else [], p.puts);
    JoinTransactions(ino, ops, dels, puts, size, OpsOf(ino, e, p), if p.puts == [] then [e.chunk] else [], p.puts, None);
  }

  lemma GrowComparisons(ino: nat, cmps: seq<(Key, Cmp)>, first: nat, next: nat, compared: seq<nat>, revs: map<nat, nat>, c: nat)
    requires Comparisons(ino, cmps, first, next, compared, revs) && c in revs && c < first && c !in compared
    ensures Comparisons(ino, cmps + [(ExtentKey(ino, c), ModIs(revs[c]))], first, next, compared + [c], revs)
  {
    var one := [(ExtentKey(ino, c), ModIs(revs[c]))];
    forall x | x in cmps ensures x.0 != ExtentKey(ino, c) {
      assert Asks(ino, first, next, compared, revs, x);
    }
    JoinKeys(cmps, one);
    forall x ensures x in cmps + one <==> Asks(ino, first, next, compared + [c], revs, x) {
      assert x in cmps <==> Asks(ino, first, next, compared, revs, x);
    }
  }

  /** No put, delete or comparison so far names an extent still to come. */
  lemma ComingUp(arenas: set<nat>, es: seq<Extent>, e: Extent, w: Write)
    requires DistinctChunks(es + [e]) && ChunksBelow(es + [e], w.chunk)
    ensures DistinctChunks(es) && ChunksBelow(es, w.chunk) && e.chunk < w.chunk
    ensures var first := w.chunk + |w.runs|;
            && e.chunk !in Removed(arenas, es, w.off, w.End(), first)
            && e.chunk !in Compared(arenas, es, w.off, w.End(), first)
            && !HasChunk(w.New() + Rewritten(arenas, es, w.off, w.End(), first), e.chunk)
            && forall c :: c in Removed(arenas, es, w.off, w.End(), first) ==> c < w.chunk
  {
    var first, all := w.chunk + |w.runs|, es + [e];
    assert forall i :: 0 <= i < |es| ==> all[i] == es[i];
    assert all[|es|] == e;
    assert !HasChunk(es, e.chunk);
    RewrittenChunks(arenas, es, w.off, w.End(), first);
    var puts := Rewritten(arenas, es, w.off, w.End(), first);
    JoinHasChunk(w.New(), puts, e.chunk);
    NewChunks(w.runs, w.off, w.len, w.chunk, w.sn, w.gen, w.node);
    if e.chunk in Compared(arenas, es, w.off, w.End(), first) {
      ComparedIsChanged(arenas, es, w.off, w.End(), first, e.chunk);
    }
  }

  lemma NextGrows(arenas: set<nat>, es: seq<Extent>, start: nat, end: nat, next: nat)
    ensures NextAfter(arenas, es, start, end, next) >= next
  {
  }

  lemma PiecesNotRemoved(arenas: set<nat>, es: seq<Extent>, e: Extent, w: Write, next: nat, p: Plan)
    requires DistinctChunks(es + [e]) && ChunksBelow(es + [e], w.chunk)
    requires next == NextAfter(arenas, es, w.off, w.End(), w.chunk + |w.runs|)
    requires PlanFor(arenas, e, w.off, w.End(), next) == Some(p)
    ensures forall q :: q in p.puts ==> q.chunk !in Removed(arenas, es, w.off, w.End(), w.chunk + |w.runs|)
  {
    ComingUp(arenas, es, e, w);
    NextGrows(arenas, es, w.off, w.End(), w.chunk + |w.runs|);
    assert forall q :: q in p.puts ==> q.chunk == e.chunk || q.chunk == next;
  }

  /** The operations and comparisons once a plan, if any, is folded in. */
  function OpsWith(ino: nat, e: Extent, p: Option<Plan>, ops: seq<(Key, Op)>): seq<(Key, Op)> {
    if p.Some? then ops + OpsOf(ino, e, p.value) else ops
  }

  function CmpsWith(ino: nat, e: Extent, p: Option<Plan>, rev: nat, cmps: seq<(Key, Cmp)>): seq<(Key, Cmp)> {
    if p.Some? then cmps + [(ExtentKey(ino, e.chunk), ModIs(rev))] else cmps
  }

  lemma PlannedOps(arenas: set<nat>, ino: nat, es: seq<Extent>, e: Extent, w: Write, size: Option<nat>, next: nat,
                   ops: seq<(Key, Op)>, dels: seq<nat>, puts: seq<Extent>, p: Plan)
    requires next == NextAfter(arenas, es, w.off, w.End(), w.chunk + |w.runs|)
    requires dels == Removed(arenas, es, w.off, w.End(), w.chunk + |w.runs|)
    requires puts == Rewritten(arenas, es, w.off, w.End(), w.chunk + |w.runs|)
    requires Transaction(ino, ops, dels, w.New() + puts, size)
    requires DistinctChunks(es + [e]) && ChunksBelow(es + [e], w.chunk)
    requires PlanFor(arenas, e, w.off, w.End(), next) == Some(p)
    ensures Transaction(ino, ops + OpsOf(ino, e, p), dels + (if p.puts == [] then [e.chunk] else []),
                        w.New() + (puts + p.puts), size)
  {
    ComingUp(arenas, es, e, w);
    PiecesNotRemoved(arenas, es, e, w, next, p);
    PutsDistinct(arenas, es + [e], w, w.End());
    SnocRewritten(arenas, es, e, w.off, w.End(), w.chunk + |w.runs|);
    assert (w.New() + puts) + p.puts == w.New() + (puts + p.puts);
    GrowTransaction(ino, ops, dels, w.New() + puts, size, e, p);
  }

  lemma PlanOps(arenas: set<nat>, ino: nat, es: seq<Extent>, e: Extent, w: Write, size: Option<nat>, next: nat, ops: seq<(Key, Op)>)
    requires OpsPlanned(arenas, ino, es, w, size, ops)
    requires next == NextAfter(arenas, es, w.off, w.End(), w.chunk + |w.runs|)
    requires DistinctChunks(es + [e]) && ChunksBelow(es + [e], w.chunk)
    ensures OpsPlanned(arenas, ino, es + [e], w, size, OpsWith(ino, e, PlanFor(arenas, e, w.off, w.End(), next), ops))
  {
    var first := w.chunk + |w.runs|;
    var dels, puts := Removed(arenas, es, w.off, w.End(), first), Rewritten(arenas, es, w.off, w.End(), first);
    SnocRewritten(arenas, es, e, w.off, w.End(), first);
    SnocRemoved(arenas, es, e, w.off, w.End(), first);
    var p := PlanFor(arenas, e, w.off, w.End(), next);
    if p.Some? {
      PlannedOps(arenas, ino, es, e, w, size, next, ops, dels, puts, p.value);
    } else {
      assert puts + [] == puts && dels + [] == dels;
    }
  }

  lemma PlanCmps(arenas: set<nat>, ino: nat, es: seq<Extent>, e: Extent, w: Write, revs: map<nat, nat>, next: nat, cmps: seq<(Key, Cmp)>)
    requires CmpsPlanned(arenas, ino, es, w, revs, cmps) && e.chunk in revs
    requires next == NextAfter(arenas, es, w.off, w.End(), w.chunk + |w.runs|)
    requires DistinctChunks(es + [e]) && ChunksBelow(es + [e], w.chunk)
    ensures CmpsPlanned(arenas, ino, es + [e], w, revs,
                        CmpsWith(ino, e, PlanFor(arenas, e, w.off, w.End(), next), revs[e.chunk], cmps))
  {
    var first := w.chunk + |w.runs|;
    var compared := Compared(arenas, es, w.off, w.End(), first);
    SnocCompared(arenas, es, e, w.off, w.End(), first);
    if PlanFor(arenas, e, w.off, w.End(), next).Some? {
      ComingUp(arenas, es, e, w);
      GrowComparisons(ino, cmps, w.chunk, first, compared, revs, e.chunk);
    } else {
      assert compared + [] == compared;
    }
  }

  // --- The write object --------------------------------------------------------------

  /** The extents of a list a write reaches. */
  function HitsIn(es: seq<Extent>, start: nat, end: nat): seq<Extent> {
    if es == [] then []
    else
      var last := es[|es| - 1];
      HitsIn(es[..|es| - 1], start, end) + (if Hits(last, start, end) then [last] else [])
  }

  lemma {:induction false} HitsAre(es: seq<Extent>, start: nat, end: nat)
    ensures forall e :: e in HitsIn(es, start, end) <==> e in es && e.logOff < end && start < e.End()
  {
    if es != [] {
      HitsAre(es[..|es| - 1], start, end);
      assert es == es[..|es| - 1] + [es[|es| - 1]];
    }
  }

  /** The size the file has once the transaction is applied. */
  function SizeAfter(ino: nat, size: nat, ops: map<Key, Op>): nat {
    if InodeKey(ino) in ops && ops[InodeKey(ino)].Put? && ops[InodeKey(ino)].value.Record?
    then ops[InodeKey(ino)].value.size else size
  }

  lemma RecordSaid(ino: nat, ops: seq<(Key, Op)>, dels: seq<nat>, puts: seq<Extent>, size: Option<nat>)
    requires Transaction(ino, ops, dels, puts, size)
    ensures InodeKey(ino) in AsMap(ops) <==> size.Some?
    ensures size.Some? ==> AsMap(ops)[InodeKey(ino)] == Put(Record(size.value), 0)
  {
    var key := InodeKey(ino);
    if size.Some? {
      var x := (key, Put(Record(size.value), 0));
      assert Says(ino, dels, puts, size, x) && x in ops;
      AsMapOf(ops, key, x.1);
    }
    if key in AsMap(ops) {
      AsMapOf(ops, key, AsMap(ops)[key]);
      assert Says(ino, dels, puts, size, (key, AsMap(ops)[key]));
    }
  }

  /** The blocks a list of plans gives back. */
  function FreedBy(plans: seq<Plan>): set<nat> {
    if plans == [] then {}
    else FreedBy(plans[..|plans| - 1]) + RangeBlocks(plans[|plans| - 1].freeOff, plans[|plans| - 1].freeLen)
  }

  /** No room left in the transaction for rewriting one more extent. */
  predicate Full(cmps: nat, ops: nat) {
    ops + MAX_RECLAIM_OPS + 1 > MAX_TXN_OPS || cmps + 1 > MAX_TXN_OPS
  }

  /** The numbers and blocks the extents planned for so far account for. */
  ghost predicate Counted(arenas: set<nat>, es: seq<Extent>, w: Write, next: nat, plans: seq<Plan>) {
    && next == NextAfter(arenas, es, w.off, w.End(), w.chunk + |w.runs|)
    && FreedBy(plans) == AllFreed(arenas, es, w.off, w.End())
  }

  /** Everything the loop keeps about the extents planned for so far. */
  ghost predicate Planned(arenas: set<nat>, ino: nat, es: seq<Extent>, w: Write, size: Option<nat>, revs: map<nat, nat>,
                          next: nat, cmps: seq<(Key, Cmp)>, ops: seq<(Key, Op)>, plans: seq<Plan>) {
    && OpsPlanned(arenas, ino, es, w, size, ops)
    && CmpsPlanned(arenas, ino, es, w, revs, cmps)
    && Counted(arenas, es, w, next, plans)
  }

  function PlansWith(p: Option<Plan>, plans: seq<Plan>): seq<Plan> {
    if p.Some? then plans + [p.value] else plans
  }

  lemma PlanCounts(arenas: set<nat>, es: seq<Extent>, e: Extent, w: Write, next: nat, plans: seq<Plan>)
    requires Counted(arenas, es, w, next, plans)
    ensures Counted(arenas, es + [e], w, NextChunk(arenas, e, w.off, w.End(), next),
                    PlansWith(PlanFor(arenas, e, w.off, w.End(), next), plans))
  {
    SnocNext(arenas, es, e, w.off, w.End(), w.chunk + |w.runs|);
    SnocFreed(arenas, es, e, w.off, w.End());
    OneMorePlan(arenas, e, w.off, w.End(), next, plans);
  }

  lemma PlanNext(arenas: set<nat>, ino: nat, es: seq<Extent>, i: nat, w: Write, size: Option<nat>, revs: map<nat, nat>,
                 next: nat, cmps: seq<(Key, Cmp)>, ops: seq<(Key, Op)>, plans: seq<Plan>)
    requires i < |es| && Planned(arenas, ino, es[..i], w, size, revs, next, cmps, ops, plans)
    requires DistinctChunks(es) && ChunksBelow(es, w.chunk) && es[i].chunk in revs
    ensures var p := PlanFor(arenas, es[i], w.off, w.End(), next);
            Planned(arenas, ino, es[..i + 1], w, size, revs, NextChunk(arenas, es[i], w.off, w.End(), next),
                    CmpsWith(ino, es[i], p, revs[es[i].chunk], cmps), OpsWith(ino, es[i], p, ops), PlansWith(p, plans))
  {
    var e := es[i];
    assert es[..i + 1] == es[..i] + [e];
    PlanOps(arenas, ino, es[..i], e, w, size, next, ops);
    PlanCmps(arenas, ino, es[..i], e, w, revs, next, cmps);
    PlanCounts(arenas, es[..i], e, w, next, plans);
  }

  lemma OneMorePlan(arenas: set<nat>, e: Extent, start: nat, end: nat, next: nat, plans: seq<Plan>)
    ensures var p := PlanFor(arenas, e, start, end, next);
            if p.Some? then FreedBy(plans + [p.value]) == FreedBy(plans) + Freed(arenas, e, start, end)
            else Freed(arenas, e, start, end) == {}
  {
    var p := PlanFor(arenas, e, start, end, next);
    if p.Some? {
      assert (plans + [p.value])[..|plans|] == plans;
    }
  }

  lemma OneMoreHit(es: seq<Extent>, k: nat, i: nat, start: nat, end: nat)
    requires k <= i < |es|
    ensures HitsIn(es[k..i + 1], start, end)
            == HitsIn(es[k..i], start, end) + (if Hits(es[i], start, end) then [es[i]] else [])
  {
    assert es[k..i + 1][..i - k] == es[k..i];
  }

  lemma NewComparisons(ino: nat, first: nat, n: nat, cmps: seq<(Key, Cmp)>, revs: map<nat, nat>)
    requires |cmps| == n && forall i :: 0 <= i < n ==> cmps[i] == (ExtentKey(ino, first + i), Missing)
    ensures Comparisons(ino, cmps, first, first + n, [], revs)
  {
    forall x ensures x in cmps <==> Asks(ino, first, first + n, [], revs, x) {
      if Asks(ino, first, first + n, [], revs, x) {
        assert cmps[x.0.chunk - first] == x;
      }
    }
  }

  lemma OneMoreMade(made: seq<Extent>, runs: seq<Run>, i: nat, off: nat, left: nat, chunk: nat, sn: nat, gen: nat, node: Node)
    requires i < |runs|
    ensures var n := Min(runs[i].length, left);
            made + NewExtents(runs[i..], off, left, chunk, sn, gen, node)
            == made + [Extent(chunk, sn, node, gen, off, runs[i].diskOff, n)]
               + NewExtents(runs[i + 1..], off + n, left - n, chunk + 1, sn, gen, node)
  {
    assert runs[i..][1..] == runs[i + 1..];
  }

  lemma OneMorePut(ino: nat, made: seq<Extent>, e: Extent)
    ensures PutsOf(ino, made + [e]) == PutsOf(ino, made) + [(ExtentKey(ino, e.chunk), Put(Stored(e), 0))]
  {
  }

  lemma OneMoreFits(runs: seq<Run>, i: nat, left: nat)
    requires i < |runs| && Fits(runs[i..], left)
    ensures var n := Min(runs[i].length, left);
            && n > 0 && Fits(runs[i + 1..], left - n)
            && (left == n ==> i + 1 == |runs|) && (left > n ==> n == runs[i].length)
  {
    FirstNew(runs[i..], left);
    assert runs[i..][1..] == runs[i + 1..];
  }

  /** Folds the plan for one buried extent into the transaction. */
  method PlanAt(arenas: set<nat>, ino: nat, es: seq<Extent>, i: nat, ghost w: Write, ghost size: Option<nat>, revs: map<nat, nat>,
                start: nat, end: nat, next0: nat, cmps0: seq<(Key, Cmp)>, ops0: seq<(Key, Op)>, plans0: seq<Plan>)
    returns (next: nat, cmps: seq<(Key, Cmp)>, ops: seq<(Key, Op)>, plans: seq<Plan>)
    requires i < |es| && w.off == start && w.End() == end && Hits(es[i], start, end)
    requires DistinctChunks(es) && ChunksBelow(es, w.chunk) && es[i].chunk in revs
    requires Planned(arenas, ino, es[..i], w, size, revs, next0, cmps0, ops0, plans0)
    ensures Planned(arenas, ino, es[..i + 1], w, size, revs, next, cmps, ops, plans)
    ensures |ops0| <= |ops| <= |ops0| + MAX_RECLAIM_OPS && |cmps0| <= |cmps| <= |cmps0| + 1
  {
    PlanNext(arenas, ino, es, i, w, size, revs, next0, cmps0, ops0, plans0);
    next, cmps, ops, plans := next0, cmps0, ops0, plans0;
    var p := PlanReclaim(arenas, es[i], start, end, next);
    if p.Some? {
      cmps := cmps + [(ExtentKey(ino, es[i].chunk), ModIs(revs[es[i].chunk]))];
      ops := ops + OpsOf(ino, es[i], p.value);
      plans := plans + [p.value];
      if |p.value.puts| == 2 {
        next := next + 1;
      }
    }
  }

  /** Plans for every extent the write reaches while the transaction has room;
      from the first that does not fit (`k`), they are put off. */
  method PlanAll(arenas: set<nat>, ino: nat, es: seq<Extent>, ghost w: Write, ghost size: Option<nat>, revs: map<nat, nat>,
                 start: nat, end: nat, next0: nat, cmps0: seq<(Key, Cmp)>, ops0: seq<(Key, Op)>)
    returns (next: nat, cmps: seq<(Key, Cmp)>, ops: seq<(Key, Op)>, plans: seq<Plan>, late: seq<Extent>, ghost k: nat)
    requires w.off == start && w.End() == end
    requires DistinctChunks(es) && ChunksBelow(es, w.chunk) && forall e :: e in es ==> e.chunk in revs
    requires Planned(arenas, ino, [], w, size, revs, next0, cmps0, ops0, [])
    ensures k <= |es| && Planned(arenas, ino, es[..k], w, size, revs, next, cmps, ops, plans)
    ensures late == HitsIn(es[k..], start, end)
    ensures k < |es| ==> late != [] && Full(|cmps|, |ops|)
    ensures |ops0| <= |ops| <= Max(|ops0|, MAX_TXN_OPS - 1) && |cmps0| <= |cmps| <= Max(|cmps0|, MAX_TXN_OPS)
  {
    next, cmps, ops, plans, late, k := next0, cmps0, ops0, [], [], 0;
    assert es[..0] == [];
    for i := 0 to |es|
      invariant k <= i
      invariant Planned(arenas, ino, es[..k], w, size, revs, next, cmps, ops, plans)
      invariant late == HitsIn(es[k..i], start, end)
      invariant k < i ==> late != []
      invariant late != [] ==> Full(|cmps|, |ops|)
      invariant |ops0| <= |ops| <= Max(|ops0|, MAX_TXN_OPS - 1) && |cmps0| <= |cmps| <= Max(|cmps0|, MAX_TXN_OPS)
    {
      OneMoreHit(es, k, i, start, end);
      if !Hits(es[i], start, end) {
        if k == i {
          PlanNext(arenas, ino, es, i, w, size, revs, next, cmps, ops, plans);
          k := i + 1;
        }
      } else if Full(|cmps|, |ops|) {
        late := late + [es[i]];
      } else {
        next, cmps, ops, plans := PlanAt(arenas, ino, es, i, w, size, revs, start, end, next, cmps, ops, plans);
        k := i + 1;
      }
    }
    assert es[k..|es|] == es[k..];
  }

  /** The transaction puts the record exactly when the file grows or its mode
      changes, and leaves the least size that has room for what was there and for
      the write. */
  ghost predicate Grows(ino: nat, was: nat, end: nat, modeChanged: bool, ops: map<Key, Op>) {
    var now := SizeAfter(ino, was, ops);
    && (InodeKey(ino) in ops <==> end > was || modeChanged)
    && now >= was && now >= end && (now == was || now == end)
  }

  /** The size a transaction gives the inode, if it rewrites it. */
  function SizeOf(was: nat, end: nat, modeChanged: bool): Option<nat> {
    if end > was || modeChanged then Some(Max(was, end)) else None
  }

  lemma SizeGrows(arenas: set<nat>, ino: nat, es: seq<Extent>, w: Write, was: nat, modeChanged: bool, ops: seq<(Key, Op)>)
    requires OpsPlanned(arenas, ino, es, w, SizeOf(was, w.End(), modeChanged), ops)
    ensures Grows(ino, was, w.End(), modeChanged, AsMap(ops))
  {
    var first := w.chunk + |w.runs|;
    RecordSaid(ino, ops, Removed(arenas, es, w.off, w.End(), first), w.New() + Rewritten(arenas, es, w.off, w.End(), first),
               SizeOf(was, w.End(), modeChanged));
  }

  /** From the rest of the list exactly the extents under the write are put off,
      and only when one more could need more room than is left. */
  ghost predicate PutsOff(rest: seq<Extent>, off: nat, end: nat, late: seq<Extent>, cmps: nat, ops: nat) {
    && (forall e :: e in late <==> e in rest && e.logOff < end && off < e.End())
    && (rest != [] ==> late != [] && (ops + 3 > MAX_TXN_OPS || cmps + 1 > MAX_TXN_OPS))
  }

  lemma LateArePutOff(rest: seq<Extent>, off: nat, end: nat, late: seq<Extent>, cmps: nat, ops: nat)
    requires late == HitsIn(rest, off, end) && (rest != [] ==> late != [] && Full(cmps, ops))
    ensures PutsOff(rest, off, end, late, cmps, ops)
  {
    HitsAre(rest, off, end);
  }

  /** One put and one comparison per run. */
  method PlaceRuns(ino: nat, runs: seq<Run>, off: nat, len: nat, chunk: nat, sn: nat, gen: nat, node: Node)
    returns (cmps: seq<(Key, Cmp)>, ops: seq<(Key, Op)>, end: nat)
    requires Fits(runs, len)
    ensures end == off + len
    ensures ops == PutsOf(ino, NewExtents(runs, off, len, chunk, sn, gen, node)) && |ops| == |runs|
    ensures |cmps| == |runs| && forall i :: 0 <= i < |runs| ==> cmps[i] == (ExtentKey(ino, chunk + i), Missing)
  {
    cmps, ops, end := [], [], off;
    var next, pos := chunk, 0;
    ghost var made: seq<Extent>, left: nat := [], len;
    ghost var all := NewExtents(runs, off, len, chunk, sn, gen, node);
    assert runs[0..] == runs;
    for i := 0 to |runs|
      invariant |cmps| == |ops| == i && next == chunk + i
      invariant ops == PutsOf(ino, made)
      invariant forall j :: 0 <= j < i ==> cmps[j] == (ExtentKey(ino, chunk + j), Missing)
      invariant left <= len && end == off + len - left && (i < |runs| ==> pos == len - left)
      invariant Fits(runs[i..], left)
      invariant all == made + NewExtents(runs[i..], end, left, next, sn, gen, node)
    {
      OneMoreMade(made, runs, i, end, left, next, sn, gen, node);
      OneMoreFits(runs, i, left);
      // The final run is padded; its extent covers only the real bytes.
      var ext := Extent(next, sn, node, gen, off + pos, runs[i].diskOff, Min(runs[i].length, len - pos));
      cmps := cmps + [(ExtentKey(ino, next), Missing)];
      ops := ops + [(ExtentKey(ino, next), Put(Stored(ext), 0))];
      OneMorePut(ino, made, ext);
      made, left := made + [ext], left - ext.length;
      next, pos, end := next + 1, pos + runs[i].length, ext.End();
    }
    assert runs[|runs|..] == [];
  }

  /** The new extents alone are a transaction with nothing planned yet. */
  lemma Placed(arenas: set<nat>, ino: nat, w: Write, revs: map<nat, nat>, cmps: seq<(Key, Cmp)>, ops: seq<(Key, Op)>, size: nat)
    requires ops == PutsOf(ino, w.New())
    requires |cmps| == |w.runs| && forall i :: 0 <= i < |w.runs| ==> cmps[i] == (ExtentKey(ino, w.chunk + i), Missing)
    ensures Planned(arenas, ino, [], w, None, revs, w.chunk + |w.runs|, cmps, ops, [])
    ensures Planned(arenas, ino, [], w, Some(size), revs, w.chunk + |w.runs|, cmps,
                    ops + [(InodeKey(ino), Put(Record(size), 0))], [])
  {
    NewChunks(w.runs, w.off, w.len, w.chunk, w.sn, w.gen, w.node);
    NewComparisons(ino, w.chunk, |w.runs|, cmps, revs);
    PutsAre(ino, w.New());
    AddRecord(ino, w.New(), ops, size);
    assert w.New() + [] == w.New();
  }

  lemma AddRecord(ino: nat, made: seq<Extent>, ops: seq<(Key, Op)>, size: nat)
    requires Transaction(ino, ops, [], made, None)
    ensures Transaction(ino, ops + [(InodeKey(ino), Put(Record(size), 0))], [], made + [], Some(size))
  {
    RecordIs(ino, size);
    forall x | x in ops ensures x.0 != InodeKey(ino) {
      assert Says(ino, [], made, None, x);
    }
    JoinTransactions(ino, ops, [], made, None, [(InodeKey(ino), Put(Record(size), 0))], [], [], Some(size));
  }

  // --- What the transaction means -------------------------------------------------------

  lemma DecodesAlike(ino: nat, ops: map<Key, Op>, dels: seq<nat>, puts: seq<Extent>, dels': seq<nat>, puts': seq<Extent>,
                     es: seq<Extent>, after: seq<Extent>)
    requires Decodes(ino, ops, dels, puts) && Decodes(ino, ops, dels', puts') && Edited(es, dels, puts, after)
    ensures Edited(es, dels', puts', after)
  {
    forall e ensures e in puts <==> e in puts' {
      var k := ExtentKey(ino, e.chunk);
      assert k in ops && ops[k].Put? && ops[k].value == Stored(e) ==> e in puts && e in puts';
    }
    forall c ensures HasChunk(puts, c) <==> HasChunk(puts', c) {
      if HasChunk(puts, c) {
        var i :| 0 <= i < |puts| && puts[i].chunk == c;
        assert puts[i] in puts';
      }
      if HasChunk(puts', c) {
        var i :| 0 <= i < |puts'| && puts'[i].chunk == c;
        assert puts'[i] in puts;
      }
    }
  }

  /** Replaying the proposed transaction on the list it was planned on leaves
      what the write is to leave; all of it, when nothing was put off. */
  lemma ProposalReplays(arenas: set<nat>, ino: nat, es: seq<Extent>, k: nat, w: Write, size: Option<nat>,
                        ops: seq<(Key, Op)>, after: seq<Extent>)
    requires k <= |es| && DistinctChunks(es) && ChunksBelow(es, w.chunk)
    requires OpsPlanned(arenas, ino, es[..k], w, size, ops) && EditedBy(ino, es, AsMap(ops), after)
    ensures ReadBack.LeavesPartly(arenas, es, k, w, after)
    ensures k == |es| ==> Leaves(arenas, es, w, after)
  {
    var first, m := w.chunk + |w.runs|, AsMap(ops);
    var dels, puts := Removed(arenas, es[..k], w.off, w.End(), first), Rewritten(arenas, es[..k], w.off, w.End(), first);
    PutsDistinct(arenas, es[..k], w, w.End());
    TransactionDecodes(ino, ops, dels, w.New() + puts, size);
    var dels', puts' :| Decodes(ino, m, dels', puts') && Edited(es, dels', puts', after);
    DecodesAlike(ino, m, dels', puts', dels, w.New() + puts, es, after);
    ProposalLeaves(arenas, es, k, w, dels, puts, after);
    if k == |es| {
      assert es[..k] == es && es[k..] == [];
      assert Pieces(arenas, es, w.off, w.End(), first) + [] == Pieces(arenas, es, w.off, w.End(), first);
    }
  }

  /** The proposal is a plan on the view the list shows, deferrals or not. */
  lemma ProposalBuffers(arenas: set<nat>, ino: nat, view: View, es: seq<Extent>, revs: map<nat, nat>, w: Write, k: nat,
                        cmps: seq<(Key, Cmp)>, ops: seq<(Key, Op)>, size: Option<nat>)
    requires Shows(ino, view, es) && Dates(ino, view, es, revs) && (forall j :: j in view ==> InFile(j, ino))
    requires ChunksBelow(es, w.chunk) && k <= |es| && w.runs != []
    requires OpsPlanned(arenas, ino, es[..k], w, size, ops) && CmpsPlanned(arenas, ino, es[..k], w, revs, cmps)
    ensures AsMap(cmps) == CmpsFor(view, AsMap(cmps).Keys)
    ensures WritePlan(ino, view, Intent(AsMap(cmps).Keys, AsMap(ops)))
  {
    ProposalIsPlan(arenas, ino, view, es, revs, w, w.End(), es[..k], cmps, ops, size);
  }

  // --- How large it is ------------------------------------------------------------------

  lemma {:induction false} KeysAtMost<T>(s: seq<(Key, T)>)
    ensures |set x | x in s :: x.0| <= |s|
  {
    var keys := set x | x in s :: x.0;
    if s == [] {
      assert keys == {};
    } else {
      KeysAtMost(s[1..]);
      assert s == [s[0]] + s[1..];
      assert keys == (set x | x in s[1..] :: x.0) + {s[0].0};
    }
  }

  lemma {:induction false} SmallerSet<T>(a: set<T>, b: set<T>)
    requires a <= b
    ensures |a| <= |b|
  {
    if a != {} {
      var x :| x in a;
      SmallerSet(a - {x}, b - {x});
    }
  }

  function RunKeys(ino: nat, first: nat, n: nat): set<Key> {
    if n == 0 then {} else RunKeys(ino, first, n - 1) + {ExtentKey(ino, first + n - 1)}
  }

  lemma {:induction false} AsManyAsRuns(ino: nat, first: nat, n: nat)
    ensures |RunKeys(ino, first, n)| == n
    ensures forall k :: k in RunKeys(ino, first, n) ==> k.ExtentKey? && k.ino == ino && first <= k.chunk < first + n
  {
    if n > 0 {
      AsManyAsRuns(ino, first, n - 1);
    }
  }

  lemma MadeInTransaction(ino: nat, made: seq<Extent>, first: nat, dels: seq<nat>, puts: seq<Extent>, size: Option<nat>, ops: seq<(Key, Op)>)
    requires Transaction(ino, ops, dels, made + puts, size)
    requires forall i :: 0 <= i < |made| ==> made[i].chunk == first + i
    ensures |ops| >= |made| + (if size.Some? then 1 else 0)
  {
    AsManyAsRuns(ino, first, |made|);
    var keys := set x | x in ops :: x.0;
    var own := RunKeys(ino, first, |made|) + (if size.Some? then {InodeKey(ino)} else {});
    forall k | k in own ensures k in keys {
      var op := if k.ExtentKey? then Put(Stored(made[k.chunk - first]), 0) else Put(Record(size.value), 0);
      assert k.ExtentKey? ==> made[k.chunk - first] in made + puts;
      assert Says(ino, dels, made + puts, size, (k, op));
      assert (k, op) in ops;
    }
    SmallerSet(own, keys);
    KeysAtMost(ops);
  }

  /** A transaction has an operation for each of the write's runs, and one for
      the record if it rewrites it. */
  lemma RunsInTransaction(arenas: set<nat>, ino: nat, es: seq<Extent>, w: Write, size: Option<nat>, ops: seq<(Key, Op)>)
    requires OpsPlanned(arenas, ino, es, w, size, ops)
    ensures |ops| >= |w.runs| + (if size.Some? then 1 else 0)
  {
    var first := w.chunk + |w.runs|;
    NewChunks(w.runs, w.off, w.len, w.chunk, w.sn, w.gen, w.node);
    MadeInTransaction(ino, w.New(), w.chunk, Removed(arenas, es, w.off, w.End(), first),
                      Rewritten(arenas, es, w.off, w.End(), first), size, ops);
  }

  /** One-block runs on every second block. */
  function Scattered(n: nat): seq<Run> {
    if n == 0 then [] else [Run(2 * n * BLOCK, BLOCK)] + Scattered(n - 1)
  }

  lemma {:induction false} ScatteredFit(n: nat)
    ensures |Scattered(n)| == n && Fits(Scattered(n), n * BLOCK)
    ensures DisjointSpans(Scattered(n)) && forall b :: b in RunBlocks(Scattered(n)) ==> b <= 2 * n
  {
    if n > 0 {
      ScatteredFit(n - 1);
      var runs := Scattered(n);
      assert runs[1..] == Scattered(n - 1);
      assert RangeBlocks(2 * n * BLOCK, BLOCK) == {2 * n};
    }
  }

  /** A write of one more block than a transaction takes, each block a run of its
      own. */
  function ScatteredWrite(chunk: nat, sn: nat, gen: nat, node: Node): Write {
    var n := MAX_TXN_OPS + 1;
    Write(0, n * BLOCK, Scattered(n), chunk, sn, gen, node)
  }

  /** However such a write is counted and whatever it is planned over, its
      proposal is too large. */
  lemma ScatteredWriteOverflows(arenas: set<nat>, ino: nat, es: seq<Extent>, chunk: nat, sn: nat, gen: nat, node: Node,
                                size: Option<nat>, ops: seq<(Key, Op)>)
    ensures var w := ScatteredWrite(chunk, sn, gen, node);
            && Fits(w.runs, w.len) && DisjointSpans(w.runs) && Aligned(w.off)
            && (OpsPlanned(arenas, ino, es, w, size, ops) ==> |ops| > MAX_TXN_OPS)
  {
    var w := ScatteredWrite(chunk, sn, gen, node);
    ScatteredFit(MAX_TXN_OPS + 1);
    if OpsPlanned(arenas, ino, es, w, size, ops) {
      RunsInTransaction(arenas, ino, es, w, size, ops);
    }
  }

  /** What a proposal is: the new extents, the rewrites of the first `k` extents
      and the record if it changes; the others under the write put off; the file
      long enough; and within the cap exactly when the runs and the record are. */
  ghost predicate Proposes(arenas: set<nat>, ino: nat, es: seq<Extent>, w: Write, size: nat, modeChanged: bool, revs: map<nat, nat>,
                           k: nat, next: nat, cmps: seq<(Key, Cmp)>, ops: seq<(Key, Op)>, plans: seq<Plan>, late: seq<Extent>) {
    && k <= |es| && Planned(arenas, ino, es[..k], w, SizeOf(size, w.End(), modeChanged), revs, next, cmps, ops, plans)
    && late == HitsIn(es[k..], w.off, w.End()) && PutsOff(es[k..], w.off, w.End(), late, |cmps|, |ops|)
    && Grows(ino, size, w.End(), modeChanged, AsMap(ops))
    && (|ops| <= MAX_TXN_OPS && |cmps| <= MAX_TXN_OPS
        <==> |w.runs| + (if InodeKey(ino) in AsMap(ops) then 1 else 0) <= MAX_TXN_OPS)
  }

  lemma IsProposed(arenas: set<nat>, ino: nat, es: seq<Extent>, w: Write, size: nat, modeChanged: bool, revs: map<nat, nat>,
                   k: nat, next: nat, cmps: seq<(Key, Cmp)>, ops: seq<(Key, Op)>, plans: seq<Plan>, late: seq<Extent>)
    requires k <= |es| && Planned(arenas, ino, es[..k], w, SizeOf(size, w.End(), modeChanged), revs, next, cmps, ops, plans)
    requires late == HitsIn(es[k..], w.off, w.End()) && (k < |es| ==> late != [] && Full(|cmps|, |ops|))
    requires var n := |w.runs| + (if SizeOf(size, w.End(), modeChanged).Some? then 1 else 0);
             n <= |ops| <= Max(n, MAX_TXN_OPS - 1) && |w.runs| <= |cmps| <= Max(|w.runs|, MAX_TXN_OPS)
    ensures Proposes(arenas, ino, es, w, size, modeChanged, revs, k, next, cmps, ops, plans, late)
  {
    LateArePutOff(es[k..], w.off, w.End(), late, |cmps|, |ops|);
    SizeGrows(arenas, ino, es[..k], w, size, modeChanged, ops);
  }

  /** A read of what a proposal wrote, clamped to the size it leaves, gets all of
      it, each byte from the write's own runs. */
  lemma WrittenIsInFile(arenas: set<nat>, ino: nat, es: seq<Extent>, w: Write, size: nat, modeChanged: bool, ops: map<Key, Op>,
                        after: seq<Extent>, p: nat)
    requires Grows(ino, size, w.End(), modeChanged, ops)
    requires Pairwise(es) && Plannable(arenas, es, w) && Good(after) && Leaves(arenas, es, w, after) && w.off <= p < w.End()
    ensures Min(w.len, SizeAfter(ino, size, ops) - w.off) == w.len && p < SizeAfter(ino, size, ops)
    ensures FirstCovering(after, p).Some? && FirstCovering(after, p).value.Addr(p) == RunAddr(w.runs, p - w.off)
  {
    WrittenBytes(arenas, es, w, after, p);
  }

  class WriteOp {
    const arenas: set<nat>
    const ino: nat
    const off: nat
    const len: nat
    const runs: seq<Run>
    const gen: nat
    const node: Node
    // The snapshot the write is planned on: extents, the revision of each by
    // chunk, the size, and whether the write costs the file its set-ID bits.
    var existing: seq<Extent>
    var revs: map<nat, nat>
    var size: nat
    var modeChanged: bool
    // What the plan counts and produces.
    var chunk: nat
    var sn: nat
    var end: nat
    var nextChunk: nat
    var plans: seq<Plan>
    var deferred: seq<Extent>

    ghost function Spec(): Write
      reads `chunk, `sn
    {
      Write(off, len, runs, chunk, sn, gen, node)
    }

    /** What planning reads: extents under distinct chunks, each with a revision. */
    ghost predicate Valid()
      reads `existing, `revs
    {
      && Fits(runs, len)
      && DistinctChunks(existing)
      && forall e :: e in existing ==> e.chunk in revs
    }

    /** The size the transaction gives the inode, if it rewrites it. */
    ghost function Size(): Option<nat>
      reads `size, `modeChanged
    {
      SizeOf(size, off + len, modeChanged)
    }

    ghost predicate Proposed(k: nat, cmps: seq<(Key, Cmp)>, ops: seq<(Key, Op)>)
      reads this
    {
      && end == off + len
      && Proposes(arenas, ino, existing, Spec(), size, modeChanged, revs, k, nextChunk, cmps, ops, plans, deferred)
    }

    /** Numbers above every one in use, and no higher. */
    method CountFrom()
      modifies `chunk, `sn
      ensures ChunksBelow(existing, chunk) && forall e :: e in existing ==> e.sn < sn
      ensures chunk == 0 || exists e :: e in existing && e.chunk + 1 == chunk
      ensures sn == 0 || exists e :: e in existing && e.sn + 1 == sn
    {
      chunk, sn := 0, 0;
      for i := 0 to |existing|
        invariant forall j :: 0 <= j < i ==> existing[j].chunk < chunk && existing[j].sn < sn
        invariant chunk == 0 || exists e :: e in existing && e.chunk + 1 == chunk
        invariant sn == 0 || exists e :: e in existing && e.sn + 1 == sn
      {
        assert existing[i] in existing;
        if existing[i].chunk >= chunk {
          chunk := existing[i].chunk + 1;
        }
        if existing[i].sn >= sn {
          sn := existing[i].sn + 1;
        }
      }
    }

    /** Builds the transaction of this write. `k` counts the extents it could
        plan for: all of them, unless the transaction filled up. */
    method Proposal() returns (cmps: seq<(Key, Cmp)>, ops: seq<(Key, Op)>, ghost k: nat)
      requires Valid() && ChunksBelow(existing, chunk)
      modifies `end, `nextChunk, `plans, `deferred
      ensures Proposed(k, cmps, ops)
    {
      var newEnd, next, todo, late;
      cmps, ops, newEnd := Place();
      next, cmps, ops, todo, late, k :=
        PlanAll(arenas, ino, existing, Spec(), Size(), revs, off, newEnd, chunk + |runs|, cmps, ops);
      end, nextChunk, plans, deferred := newEnd, next, todo, late;
      IsProposed(arenas, ino, existing, Spec(), size, modeChanged, revs, k, next, cmps, ops, todo, late);
    }

    /** The new extents, and the record if the write changes it. */
    method Place() returns (cmps: seq<(Key, Cmp)>, ops: seq<(Key, Op)>, newEnd: nat)
      requires Fits(runs, len)
      ensures newEnd == off + len && |cmps| == |runs| && |ops| == |runs| + (if Size().Some? then 1 else 0)
      ensures Planned(arenas, ino, [], Spec(), Size(), revs, chunk + |runs|, cmps, ops, [])
    {
      cmps, ops, newEnd := PlaceRuns(ino, runs, off, len, chunk, sn, gen, node);
      Placed(arenas, ino, Spec(), revs, cmps, ops, Max(size, newEnd));
      if newEnd > size || modeChanged {
        ops := ops + [(InodeKey(ino), Put(Record(Max(size, newEnd)), 0))];
      }
    }

    /** Starts again from the inode as another publication left it. */
    method Replan(size: nat, existing: seq<Extent>, revs: map<nat, nat>)
      returns (cmps: seq<(Key, Cmp)>, ops: seq<(Key, Op)>, ghost k: nat)
      requires Fits(runs, len) && DistinctChunks(existing) && forall e :: e in existing ==> e.chunk in revs
      modifies this
      ensures this.existing == existing && this.revs == revs && this.size == size && Valid()
      ensures modeChanged == old(modeChanged)
      ensures ChunksBelow(existing, chunk) && forall e :: e in existing ==> e.sn < sn
      ensures Proposed(k, cmps, ops)
    {
      this.size, this.existing, this.revs := size, existing, revs;
      CountFrom();
      cmps, ops, k := Proposal();
    }
  }
}
