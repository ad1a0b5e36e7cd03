/** One write on its way into the metadata: the numbers it counts, the
    transaction it proposes, and what replaying that transaction on the cached
    list leaves (internal/ipc/writeop.go). */
module WriteOps {
  import opened Common
  import opened Extents
  import opened WritePath
  import ReadBack
  import opened Etcd
  import opened Deferred
  import opened PendingWrites
  import opened CachedView

  const MAX_RECLAIM_OPS: nat := 2

  // --- What a write rewrites ----------------------------------------------------------

  /** The plan for one existing extent, if the write reaches it. */
  function PlanFor(arenas: set<nat>, ext: Extent, start: nat, end: nat, next: nat): Option<Plan> {
    if Hits(ext, start, end) then PlanReclaim(arenas, ext, start, end, next) else None
  }

  /** The records that replace buried extents. */
  function Rewritten(arenas: set<nat>, es: seq<Extent>, start: nat, end: nat, next: nat): seq<Extent> {
    if es == [] then []
    else
      var p := PlanFor(arenas, es[0], start, end, next);
      (if p.Some? then p.value.puts else [])
      + Rewritten(arenas, es[1..], start, end, NextChunk(arenas, es[0], start, end, next))
  }

  /** The chunks of extents buried whole. */
  function Removed(arenas: set<nat>, es: seq<Extent>, start: nat, end: nat, next: nat): seq<nat> {
    if es == [] then []
    else
      var p := PlanFor(arenas, es[0], start, end, next);
      (if p.Some? && p.value.puts == [] then [es[0].chunk] else [])
      + Removed(arenas, es[1..], start, end, NextChunk(arenas, es[0], start, end, next))
  }

  /** The chunks whose records must not have moved since they were read. */
  function Compared(arenas: set<nat>, es: seq<Extent>, start: nat, end: nat, next: nat): seq<nat> {
    if es == [] then []
    else
      (if PlanFor(arenas, es[0], start, end, next).Some? then [es[0].chunk] else [])
      + Compared(arenas, es[1..], start, end, NextChunk(arenas, es[0], start, end, next))
  }

  /** A chunk of the list, or a number not used before. */
  ghost predicate Known(es: seq<Extent>, next: nat, c: nat) {
    HasChunk(es, c) || c >= next
  }

  lemma {:induction false} RewrittenChunks(arenas: set<nat>, es: seq<Extent>, start: nat, end: nat, next: nat)
    ensures forall p :: p in Rewritten(arenas, es, start, end, next) ==> Known(es, next, p.chunk)
    ensures forall c :: c in Removed(arenas, es, start, end, next) ==> HasChunk(es, c)
  {
    if es != [] {
      var next' := NextChunk(arenas, es[0], start, end, next);
      RewrittenChunks(arenas, es[1..], start, end, next');
      HeadHasChunk(es);
      forall p | p in Rewritten(arenas, es, start, end, next) ensures Known(es, next, p.chunk) {
        if p in Rewritten(arenas, es[1..], start, end, next') {
          TailHasChunk(es, p.chunk);
        }
      }
      forall c | c in Removed(arenas, es, start, end, next) ensures HasChunk(es, c) {
        if c in Removed(arenas, es[1..], start, end, next') {
          TailHasChunk(es, c);
        }
      }
    }
  }

  lemma HeadHasChunk(es: seq<Extent>)
    requires es != []
    ensures HasChunk(es, es[0].chunk)
  {
  }

  lemma TailHasChunk(es: seq<Extent>, c: nat)
    requires es != []
    ensures HasChunk(es, c) <==> c == es[0].chunk || HasChunk(es[1..], c)
  {
    if HasChunk(es[1..], c) {
      var i :| 0 <= i < |es[1..]| && es[1..][i].chunk == c;
      assert es[i + 1].chunk == c;
    }
    if i :| 0 <= i < |es| && es[i].chunk == c {
      if i > 0 {
        assert es[1..][i - 1].chunk == c;
      }
    }
  }

  lemma JoinHasChunk(a: seq<Extent>, b: seq<Extent>, c: nat)
    ensures HasChunk(a + b, c) <==> HasChunk(a, c) || HasChunk(b, c)
  {
    if i :| 0 <= i < |a| && a[i].chunk == c {
      assert (a + b)[i].chunk == c;
    }
    if i :| 0 <= i < |b| && b[i].chunk == c {
      assert (a + b)[|a| + i].chunk == c;
    }
  }

  /** The records of a list that neither the puts nor the deletes name. */
  ghost predicate Kept(es: seq<Extent>, dels: seq<nat>, puts: seq<Extent>, e: Extent) {
    e in es && e.chunk !in dels && !HasChunk(puts, e.chunk)
  }

  /** `pieces` holds `e` exactly if the puts do or the edit keeps it. */
  ghost predicate Same(es: seq<Extent>, dels: seq<nat>, puts: seq<Extent>, pieces: seq<Extent>, e: Extent) {
    e in pieces <==> e in puts || Kept(es, dels, puts, e)
  }

  ghost predicate AllSame(es: seq<Extent>, dels: seq<nat>, puts: seq<Extent>, pieces: seq<Extent>) {
    forall e :: Same(es, dels, puts, pieces, e)
  }

  /** One extent more in front: `mine` replaces it if it was planned for. */
  lemma JoinEdits(first: Extent, rest: seq<Extent>, planned: bool, mine: seq<Extent>,
                  puts: seq<Extent>, dels: seq<nat>, pieces: seq<Extent>, next: nat, e: Extent)
    requires Same(rest, dels, puts, pieces, e)
    requires first.chunk < next && (forall x :: x in rest ==> x.chunk < next && x.chunk != first.chunk)
    requires !planned ==> mine == []
    requires mine != [] ==> mine[0].chunk == first.chunk
    requires forall p :: p in mine ==> p.chunk == first.chunk || p.chunk >= next
    requires !HasChunk(puts, first.chunk) && first.chunk !in dels
    ensures var own := if planned && mine == [] then [first.chunk] else [];
            Same([first] + rest, own + dels, mine + puts, (if planned then mine else [first]) + pieces, e)
  {
    JoinHasChunk(mine, puts, e.chunk);
  }

  lemma RestApart(arenas: set<nat>, es: seq<Extent>, start: nat, end: nat, next: nat, next': nat)
    requires es != [] && DistinctChunks(es) && ChunksBelow(es, next) && next <= next'
    ensures es[0].chunk < next && forall x :: x in es[1..] ==> x.chunk < next && x.chunk != es[0].chunk
    ensures !HasChunk(Rewritten(arenas, es[1..], start, end, next'), es[0].chunk)
    ensures es[0].chunk !in Removed(arenas, es[1..], start, end, next')
  {
    RewrittenChunks(arenas, es[1..], start, end, next');
    assert !HasChunk(es[1..], es[0].chunk);
  }

  /** What the list holds after a write is the rewritten records and those it
      names in neither way. */
  lemma {:induction false} PiecesAreEdits(arenas: set<nat>, es: seq<Extent>, start: nat, end: nat, next: nat, e: Extent)
    requires DistinctChunks(es) && ChunksBelow(es, next)
    ensures Same(es, Removed(arenas, es, start, end, next), Rewritten(arenas, es, start, end, next),
                 Pieces(arenas, es, start, end, next), e)
  {
    if es != [] {
      var first, rest := es[0], es[1..];
      var next' := NextChunk(arenas, first, start, end, next);
      PiecesAreEdits(arenas, rest, start, end, next', e);
      RestApart(arenas, es, start, end, next, next');
      var puts, dels := Rewritten(arenas, rest, start, end, next'), Removed(arenas, rest, start, end, next');
      var p := PlanFor(arenas, first, start, end, next);
      var pieces := Pieces(arenas, rest, start, end, next');
      JoinEdits(first, rest, p.Some?, if p.Some? then p.value.puts else [], puts, dels, pieces, next, e);
      assert es == [first] + rest;
    }
  }

  lemma JoinDistinct(a: seq<Extent>, b: seq<Extent>)
    requires DistinctChunks(a) && DistinctChunks(b)
    requires forall x, y :: x in a && y in b ==> x.chunk != y.chunk
    ensures DistinctChunks(a + b)
  {
    var c := a + b;
    forall i, j | 0 <= i < j < |c| ensures c[i].chunk != c[j].chunk {
      if i < |a| <= j {
        assert c[i] in a && c[j] in b;
      }
    }
  }

  lemma {:induction false} RewrittenDistinct(arenas: set<nat>, es: seq<Extent>, start: nat, end: nat, next: nat)
    requires DistinctChunks(es) && ChunksBelow(es, next)
    ensures DistinctChunks(Rewritten(arenas, es, start, end, next))
  {
    if es != [] {
      var rest, next' := es[1..], NextChunk(arenas, es[0], start, end, next);
      RewrittenDistinct(arenas, rest, start, end, next');
      RestApart(arenas, es, start, end, next, next');
      var puts := Rewritten(arenas, rest, start, end, next');
      var p := PlanFor(arenas, es[0], start, end, next);
      var mine := if p.Some? then p.value.puts else [];
      RewrittenChunks(arenas, rest, start, end, next');
      forall x, y | x in mine && y in puts ensures x.chunk != y.chunk {
        assert Known(rest, next', y.chunk);
        if x.chunk != es[0].chunk && HasChunk(rest, y.chunk) {
          assert x.chunk == next;
        }
      }
      JoinDistinct(mine, puts);
    }
  }

  lemma {:induction false} NewChunks(runs: seq<Run>, off: nat, left: nat, chunk: nat, sn: nat, gen: nat, node: Node)
    ensures var es := NewExtents(runs, off, left, chunk, sn, gen, node);
            |es| == |runs| && forall i :: 0 <= i < |es| ==> es[i].chunk == chunk + i
  {
    if runs != [] {
      var n := Min(runs[0].length, left);
      NewChunks(runs[1..], off + n, left - n, chunk + 1, sn, gen, node);
    }
  }

  /** Everything a write puts, under numbers that do not clash. */
  lemma PutsDistinct(arenas: set<nat>, es: seq<Extent>, w: Write, end: nat)
    requires DistinctChunks(es) && ChunksBelow(es, w.chunk)
    ensures DistinctChunks(w.New() + Rewritten(arenas, es, w.off, end, w.chunk + |w.runs|))
  {
    var next := w.chunk + |w.runs|;
    var made, puts := w.New(), Rewritten(arenas, es, w.off, end, next);
    NewChunks(w.runs, w.off, w.len, w.chunk, w.sn, w.gen, w.node);
    RewrittenDistinct(arenas, es, w.off, end, next);
    RewrittenChunks(arenas, es, w.off, end, next);
    forall x, y | x in made && y in puts ensures x.chunk != y.chunk {
      assert w.chunk <= x.chunk < next;
      assert Known(es, next, y.chunk);
    }
    JoinDistinct(made, puts);
  }

  lemma EditHolds(es: seq<Extent>, dels: seq<nat>, made: seq<Extent>, puts: seq<Extent>, pieces: seq<Extent>, after: seq<Extent>)
    requires forall x, e :: x in made && e in es ==> x.chunk != e.chunk
    requires AllSame(es, dels, puts, pieces)
    requires Edited(es, dels, made + puts, after)
    ensures Ordered(after) && Holds(after, made, pieces)
  {
    forall e ensures e in after <==> e in made || e in pieces {
      assert Same(es, dels, puts, pieces, e);
      JoinHasChunk(made, puts, e.chunk);
    }
  }

  lemma MadeApart(es: seq<Extent>, w: Write)
    requires ChunksBelow(es, w.chunk)
    ensures forall x, e :: x in w.New() && e in es ==> x.chunk != e.chunk
  {
    NewChunks(w.runs, w.off, w.len, w.chunk, w.sn, w.gen, w.node);
  }

  lemma PiecesAllSame(arenas: set<nat>, es: seq<Extent>, start: nat, end: nat, next: nat)
    requires DistinctChunks(es) && ChunksBelow(es, next)
    ensures AllSame(es, Removed(arenas, es, start, end, next), Rewritten(arenas, es, start, end, next),
                    Pieces(arenas, es, start, end, next))
  {
    var dels, puts := Removed(arenas, es, start, end, next), Rewritten(arenas, es, start, end, next);
    var pieces := Pieces(arenas, es, start, end, next);
    forall e ensures Same(es, dels, puts, pieces, e) {
      PiecesAreEdits(arenas, es, start, end, next, e);
    }
  }

  /** Extents no put or delete names stay beside the pieces of the others. */
  lemma RestStays(early: seq<Extent>, late: seq<Extent>, dels: seq<nat>, puts: seq<Extent>, pieces: seq<Extent>)
    requires AllSame(early, dels, puts, pieces)
    requires forall x :: x in late ==> x.chunk !in dels && !HasChunk(puts, x.chunk)
    ensures AllSame(early + late, dels, puts, pieces + late)
  {
    forall e ensures Same(early + late, dels, puts, pieces + late, e) {
      assert Same(early, dels, puts, pieces, e);
    }
  }

  lemma LateAreNotNamed(arenas: set<nat>, es: seq<Extent>, k: nat, start: nat, end: nat, next: nat)
    requires k <= |es| && DistinctChunks(es) && ChunksBelow(es, next)
    ensures forall x :: x in es[k..] ==> x.chunk !in Removed(arenas, es[..k], start, end, next)
                                         && !HasChunk(Rewritten(arenas, es[..k], start, end, next), x.chunk)
  {
    RewrittenChunks(arenas, es[..k], start, end, next);
    forall x | x in es[k..] ensures !HasChunk(es[..k], x.chunk) && x.chunk < next {
      var i :| k <= i < |es| && es[i] == x;
    }
  }

  /** Replaying a write's puts and deletes on the list it was planned on leaves
      exactly its extents, the survivors of those it planned for (the first `k`)
      and the others as they were. */
  lemma ProposalLeaves(arenas: set<nat>, es: seq<Extent>, k: nat, w: Write, dels: seq<nat>, puts: seq<Extent>, after: seq<Extent>)
    requires k <= |es| && DistinctChunks(es) && ChunksBelow(es, w.chunk)
    requires dels == Removed(arenas, es[..k], w.off, w.End(), w.chunk + |w.runs|)
    requires puts == Rewritten(arenas, es[..k], w.off, w.End(), w.chunk + |w.runs|)
    requires Edited(es, dels, w.New() + puts, after)
    ensures ReadBack.LeavesPartly(arenas, es, k, w, after)
  {
    var next := w.chunk + |w.runs|;
    var pieces := Pieces(arenas, es[..k], w.off, w.End(), next);
    MadeApart(es, w);
    PiecesAllSame(arenas, es[..k], w.off, w.End(), next);
    LateAreNotNamed(arenas, es, k, w.off, w.End(), next);
    RestStays(es[..k], es[k..], dels, puts, pieces);
    assert es[..k] + es[k..] == es;
    EditHolds(es, dels, w.New(), puts, pieces + es[k..], after);
  }

  // --- The transaction ----------------------------------------------------------------

  lemma {:induction false} AsMapOf<T>(s: seq<(Key, T)>, k: Key, v: T)
    requires DistinctKeys(s)
    ensures (k in AsMap(s) && AsMap(s)[k] == v) <==> (k, v) in s
  {
    if s != [] {
      var most, last := s[..|s| - 1], s[|s| - 1];
      AsMapOf(most, k, v);
      assert s == most + [last];
    }
  }

  /** `x` is one of a transaction's operations: a put of one of `puts`, a delete
      of one of `dels`, or the inode record with its new size. */
  ghost predicate Says(ino: nat, dels: seq<nat>, puts: seq<Extent>, size: Option<nat>, x: (Key, Op)) {
    match x.0
    case ExtentKey(i, c) =>
      i == ino && (match x.1
                   case Delete => c in dels
                   case Put(v, lease) => lease == 0 && v.Stored? && v.ext.chunk == c && v.ext in puts)
    case InodeKey(i) => i == ino && size.Some? && x.1 == Put(Record(size.value), 0)
    case _ => false
  }

  ghost predicate Transaction(ino: nat, ops: seq<(Key, Op)>, dels: seq<nat>, puts: seq<Extent>, size: Option<nat>) {
    DistinctKeys(ops) && forall x :: x in ops <==> Says(ino, dels, puts, size, x)
  }

  /** The comparisons: every new chunk is unused, every rewritten record is
      where it was read. */
  ghost predicate Asks(ino: nat, first: nat, next: nat, compared: seq<nat>, revs: map<nat, nat>, x: (Key, Cmp)) {
    x.0.ExtentKey? && x.0.ino == ino && var c := x.0.chunk;
    (first <= c < next && x.1 == Missing) || (c in compared && c in revs && x.1 == ModIs(revs[c]))
  }

  ghost predicate Comparisons(ino: nat, cmps: seq<(Key, Cmp)>, first: nat, next: nat, compared: seq<nat>, revs: map<nat, nat>) {
    DistinctKeys(cmps) && forall x :: x in cmps <==> Asks(ino, first, next, compared, revs, x)
  }

  /** The transaction decodes to the puts and deletes it was built from. */
  lemma TransactionDecodes(ino: nat, ops: seq<(Key, Op)>, dels: seq<nat>, puts: seq<Extent>, size: Option<nat>)
    requires Transaction(ino, ops, dels, puts, size) && DistinctChunks(puts)
    ensures Decodes(ino, AsMap(ops), dels, puts)
  {
    var m := AsMap(ops);
    forall c ensures c in dels <==> ExtentKey(ino, c) in m && m[ExtentKey(ino, c)].Delete? {
      AsMapOf(ops, ExtentKey(ino, c), Delete);
      assert Says(ino, dels, puts, size, (ExtentKey(ino, c), Delete)) <==> c in dels;
    }
    forall e | e in puts ensures ExtentKey(ino, e.chunk) in m && m[ExtentKey(ino, e.chunk)] == Put(Stored(e), 0) {
      AsMapOf(ops, ExtentKey(ino, e.chunk), Put(Stored(e), 0));
      assert Says(ino, dels, puts, size, (ExtentKey(ino, e.chunk), Put(Stored(e), 0)));
    }
    forall c | ExtentKey(ino, c) in m && m[ExtentKey(ino, c)].Put?
      ensures var v := m[ExtentKey(ino, c)].value; v.Stored? && v.ext.chunk == c && v.ext in puts
    {
      AsMapOf(ops, ExtentKey(ino, c), m[ExtentKey(ino, c)]);
      assert Says(ino, dels, puts, size, (ExtentKey(ino, c), m[ExtentKey(ino, c)]));
    }
  }

  /** The comparisons are those of a write planned on the view the list shows. */
  lemma ComparisonsAreViews(ino: nat, view: View, es: seq<Extent>, revs: map<nat, nat>,
                            cmps: seq<(Key, Cmp)>, first: nat, next: nat, compared: seq<nat>)
    requires Shows(ino, view, es) && Dates(ino, view, es, revs) && ChunksBelow(es, first)
    requires Comparisons(ino, cmps, first, next, compared, revs) && forall c :: c in compared ==> HasChunk(es, c)
    ensures AsMap(cmps) == CmpsFor(view, AsMap(cmps).Keys)
  {
    var m := AsMap(cmps);
    forall k | k in m ensures m[k] == if k in view then ModIs(view[k].rev) else Missing {
      AsMapOf(cmps, k, m[k]);
      assert Asks(ino, first, next, compared, revs, (k, m[k]));
      assert k == ExtentKey(ino, k.chunk);
      if k.chunk in compared {
        assert HasChunk(es, k.chunk);
      }
    }
  }

  /** `revs` keeps, for every extent of the list, the revision it was read at. */
  ghost predicate Dates(ino: nat, view: View, es: seq<Extent>, revs: map<nat, nat>) {
    forall e :: e in es ==> e.chunk in revs && ExtentKey(ino, e.chunk) in view
                            && view[ExtentKey(ino, e.chunk)].rev == revs[e.chunk]
  }

  /** A record that is compared is rewritten or removed. */
  lemma {:induction false} ComparedIsChanged(arenas: set<nat>, es: seq<Extent>, start: nat, end: nat, next: nat, c: nat)
    requires c in Compared(arenas, es, start, end, next)
    ensures HasChunk(es, c)
    ensures c in Removed(arenas, es, start, end, next) || HasChunk(Rewritten(arenas, es, start, end, next), c)
  {
    var p := PlanFor(arenas, es[0], start, end, next);
    var next' := NextChunk(arenas, es[0], start, end, next);
    var mine, rest := if p.Some? then p.value.puts else [], Rewritten(arenas, es[1..], start, end, next');
    TailHasChunk(es, c);
    JoinHasChunk(mine, rest, c);
    if p.Some? && c == es[0].chunk {
      if mine != [] {
        assert mine[0].chunk == c;
      }
    } else {
      ComparedIsChanged(arenas, es[1..], start, end, next', c);
    }
  }

  /** What a write proposes is a plan on the view, as the buffer expects it. */
  lemma ProposalIsPlan(arenas: set<nat>, ino: nat, view: View, es: seq<Extent>, revs: map<nat, nat>, w: Write, end: nat,
                       planned: seq<Extent>, cmps: seq<(Key, Cmp)>, ops: seq<(Key, Op)>, size: Option<nat>)
    requires Shows(ino, view, es) && Dates(ino, view, es, revs) && (forall k :: k in view ==> InFile(k, ino))
    requires ChunksBelow(es, w.chunk) && planned <= es && w.runs != []
    requires var next := w.chunk + |w.runs|;
             && Transaction(ino, ops, Removed(arenas, planned, w.off, end, next),
                            w.New() + Rewritten(arenas, planned, w.off, end, next), size)
             && Comparisons(ino, cmps, w.chunk, next, Compared(arenas, planned, w.off, end, next), revs)
    ensures AsMap(cmps) == CmpsFor(view, AsMap(cmps).Keys)
    ensures WritePlan(ino, view, Intent(AsMap(cmps).Keys, AsMap(ops)))
  {
    var next := w.chunk + |w.runs|;
    var dels, puts := Removed(arenas, planned, w.off, end, next), Rewritten(arenas, planned, w.off, end, next);
    var compared, made := Compared(arenas, planned, w.off, end, next), w.New();
    forall c | c in compared ensures HasChunk(es, c) && (c in dels || HasChunk(puts, c)) {
      ComparedIsChanged(arenas, planned, w.off, end, next, c);
    }
    RewrittenChunks(arenas, planned, w.off, end, next);
    NewChunks(w.runs, w.off, w.len, w.chunk, w.sn, w.gen, w.node);
    PlanShape(ino, view, es, revs, w.chunk, next, made, dels, puts, compared, cmps, ops, size);
  }

  lemma PlanShape(ino: nat, view: View, es: seq<Extent>, revs: map<nat, nat>, first: nat, next: nat, made: seq<Extent>,
                  dels: seq<nat>, puts: seq<Extent>, compared: seq<nat>,
                  cmps: seq<(Key, Cmp)>, ops: seq<(Key, Op)>, size: Option<nat>)
    requires Shows(ino, view, es) && Dates(ino, view, es, revs) && (forall k :: k in view ==> InFile(k, ino))
    requires ChunksBelow(es, first) && first < next
    requires |made| == next - first && forall i :: 0 <= i < |made| ==> made[i].chunk == first + i
    requires forall c :: c in compared ==> HasChunk(es, c) && (c in dels || HasChunk(puts, c))
    requires forall c :: c in dels ==> HasChunk(es, c)
    requires Transaction(ino, ops, dels, made + puts, size) && Comparisons(ino, cmps, first, next, compared, revs)
    ensures AsMap(cmps) == CmpsFor(view, AsMap(cmps).Keys)
    ensures WritePlan(ino, view, Intent(AsMap(cmps).Keys, AsMap(ops)))
  {
    ComparisonsAreViews(ino, view, es, revs, cmps, first, next, compared);
    var asked, done := AsMap(cmps), AsMap(ops);
    forall k | k in done ensures InFile(k, ino) && (k.ExtentKey? ==> k in view || done[k].Put?) {
      AsMapOf(ops, k, done[k]);
      assert Says(ino, dels, made + puts, size, (k, done[k]));
    }
    forall k | k in asked ensures k.ExtentKey? && k in done {
      AsMapOf(cmps, k, asked[k]);
      assert Asks(ino, first, next, compared, revs, (k, asked[k]));
      IsDone(ino, ops, dels, made + puts, size, k.chunk);
      JoinHasChunk(made, puts, k.chunk);
      assert first <= k.chunk < next ==> made[k.chunk - first].chunk == k.chunk;
    }
    var anchor := ExtentKey(ino, first);
    AsMapOf(cmps, anchor, Missing);
    assert Asks(ino, first, next, compared, revs, (anchor, Missing));
    AsMapOf(ops, anchor, Put(Stored(made[0]), 0));
    assert Says(ino, dels, made + puts, size, (anchor, Put(Stored(made[0]), 0)));
    assert Above(view, anchor) && anchor in asked && done[anchor].Put?;
  }

  lemma IsDone(ino: nat, ops: seq<(Key, Op)>, dels: seq<nat>, puts: seq<Extent>, size: Option<nat>, c: nat)
    requires Transaction(ino, ops, dels, puts, size)
    ensures c in dels || HasChunk(puts, c) ==> ExtentKey(ino, c) in AsMap(ops)
  {
    if c in dels {
      AsMapOf(ops, ExtentKey(ino, c), Delete);
      assert Says(ino, dels, puts, size, (ExtentKey(ino, c), Delete));
    } else if i :| 0 <= i < |puts| && puts[i].chunk == c {
      AsMapOf(ops, ExtentKey(ino, c), Put(Stored(puts[i]), 0));
      assert Says(ino, dels, puts, size, (ExtentKey(ino, c), Put(Stored(puts[i]), 0)));
    }
  }
}
