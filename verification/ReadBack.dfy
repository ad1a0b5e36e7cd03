/** When exactly a write reads back: any offset, any ownership of the extents it
    buries, any of them put off for lack of room (pkg/metadata/extent.go
    SplitAround, internal/ipc/datapath.go handleRead and planReclaim). */
module ReadBack {
  import opened Common
  import opened Extents
  import opened WritePath

  /** The list after a write that planned for the first `k` extents only. */
  ghost predicate LeavesPartly(arenas: set<nat>, es: seq<Extent>, k: nat, w: Write, after: seq<Extent>)
    requires k <= |es|
  {
    Ordered(after) && Holds(after, w.New(), Pieces(arenas, es[..k], w.off, w.End(), w.chunk + |w.runs|) + es[k..])
  }

  ghost predicate Straddles(x: Extent, s: nat) {
    x.logOff < s < x.End()
  }

  /** Planning for `ext` leaves nothing across `s`: it is this node's, and what
      is left of its tail starts at `s` or later. */
  predicate Clear(arenas: set<nat>, ext: Extent, end: nat, s: nat) {
    if ext.logOff >= s || ext.End() <= s then true
    else Owns(arenas, ext.diskOff) && (ext.End() <= end || ext.logOff + (end - ext.logOff) / BLOCK * BLOCK >= s)
  }

  lemma SurvivorsStraddle(arenas: set<nat>, ext: Extent, start: nat, end: nat, next: nat, s: nat)
    requires start <= s < end
    ensures Crossed(Survivors(arenas, ext, start, end, next), s) <==> !Clear(arenas, ext, end, s)
  {
    if !Clear(arenas, ext, end, s) {
      assert Hits(ext, start, end);
      if !Owns(arenas, ext.diskOff) {
        assert ext in Survivors(arenas, ext, start, end, next) && Straddles(ext, s);
      } else {
        var (head, tail) := SplitAround(ext, start, end);
        assert tail.Some? && Straddles(tail.value, s);
        var y := if head.Some? then tail.value.(chunk := next) else tail.value;
        if head.None? && tail.value.logOff == ext.logOff {
          assert ext in Survivors(arenas, ext, start, end, next) && Straddles(ext, s);
        } else {
          assert y in Survivors(arenas, ext, start, end, next) && Straddles(y, s);
        }
      }
    }
  }

  lemma {:induction false} PiecesStraddle(arenas: set<nat>, es: seq<Extent>, start: nat, end: nat, next: nat, s: nat)
    requires start <= s < end
    ensures Crossed(Pieces(arenas, es, start, end, next), s) <==> !ClearOf(arenas, es, [], end, s)
  {
    if es != [] {
      var next' := NextChunk(arenas, es[0], start, end, next);
      SurvivorsStraddle(arenas, es[0], start, end, next, s);
      PiecesStraddle(arenas, es[1..], start, end, next', s);
      SplitStraddle(Survivors(arenas, es[0], start, end, next), Pieces(arenas, es[1..], start, end, next'), s);
      assert es == [es[0]] + es[1..];
      if x :| x in es && !Clear(arenas, x, end, s) {
        assert x == es[0] || x in es[1..];
      }
      if x :| x in es[1..] && !Clear(arenas, x, end, s) {
        assert x in es;
      }
    }
  }

  lemma SplitStraddle(a: seq<Extent>, b: seq<Extent>, s: nat)
    ensures Crossed(a + b, s) <==> Crossed(a, s) || Crossed(b, s)
  {
    if y :| y in a && Straddles(y, s) {
      assert y in a + b;
    }
    if y :| y in b && Straddles(y, s) {
      assert y in a + b;
    }
  }

  // --- The write's own extents ---------------------------------------------------------

  /** The extents of a write lie end to end over its range. */
  ghost predicate EndToEnd(es: seq<Extent>, off: nat, left: nat, sn: nat) {
    && (forall e :: e in es ==> e.length > 0 && off <= e.logOff && e.End() <= off + left && e.sn == sn)
    && (forall e, f :: e in es && f in es && e != f ==> !e.Overlaps(f))
    && (forall p :: off <= p < off + left ==> Covered(es, p))
  }

  ghost predicate Covered(es: seq<Extent>, p: nat) {
    exists e :: e in es && e.Covers(p)
  }

  lemma {:induction false} NewEndToEnd(runs: seq<Run>, off: nat, left: nat, chunk: nat, sn: nat, gen: nat, node: Node)
    requires Fits(runs, left)
    ensures EndToEnd(NewExtents(runs, off, left, chunk, sn, gen, node), off, left, sn)
  {
    if runs != [] {
      FirstNew(runs, left);
      var n := Min(runs[0].length, left);
      NewEndToEnd(runs[1..], off + n, left - n, chunk + 1, sn, gen, node);
      var first := Extent(chunk, sn, node, gen, off, runs[0].diskOff, n);
      ConsEndToEnd(first, NewExtents(runs[1..], off + n, left - n, chunk + 1, sn, gen, node), off, left);
    }
  }

  lemma ConsEndToEnd(first: Extent, rest: seq<Extent>, off: nat, left: nat)
    requires first.logOff == off && 0 < first.length <= left
    requires EndToEnd(rest, first.End(), left - first.length, first.sn)
    ensures EndToEnd([first] + rest, off, left, first.sn)
  {
    var es := [first] + rest;
    forall p | off <= p < off + left ensures Covered(es, p) {
      if p < first.End() {
        assert first in es && first.Covers(p);
      } else {
        assert Covered(rest, p);
        var e :| e in rest && e.Covers(p);
        assert e in es;
      }
    }
  }

  // --- The theorem -----------------------------------------------------------------------

  function Range(es: seq<Extent>): set<Extent> {
    set e | e in es
  }

  /** Every byte of the write resolves to the write. */
  ghost predicate ReadsBack(w: Write, after: seq<Extent>) {
    forall p :: w.off <= p < w.End() ==> ResolvesTo(after, Range(w.New()), p)
  }

  /** Nothing of the extents planned for (`early`), nor any of the others, is
      left across `s`. */
  ghost predicate ClearOf(arenas: set<nat>, early: seq<Extent>, late: seq<Extent>, end: nat, s: nat) {
    && (forall x :: x in early ==> Clear(arenas, x, end, s))
    && (forall x :: x in late ==> !Straddles(x, s))
  }

  /** What a caller can see before the write: the list is clear of the start of
      each of the write's own extents. */
  ghost predicate AllClear(arenas: set<nat>, es: seq<Extent>, k: nat, w: Write)
    requires k <= |es|
  {
    forall n :: n in w.New() ==> ClearOf(arenas, es[..k], es[k..], w.End(), n.logOff)
  }

  ghost predicate Crossed(es: seq<Extent>, s: nat) {
    exists y :: y in es && Straddles(y, s)
  }

  lemma {:induction false} PiecesKeepAge(arenas: set<nat>, es: seq<Extent>, start: nat, end: nat, next: nat, top: nat)
    requires forall x :: x in es ==> x.sn < top
    ensures forall y :: y in Pieces(arenas, es, start, end, next) ==> y.sn < top
  {
    if es != [] {
      PiecesKeepAge(arenas, es[1..], start, end, NextChunk(arenas, es[0], start, end, next), top);
      assert es[0] in es;
      assert forall x :: x in es[1..] ==> x in es;
    }
  }

  lemma IsTheWrite(made: seq<Extent>, others: seq<Extent>, after: seq<Extent>, off: nat, left: nat, sn: nat)
    requires EndToEnd(made, off, left, sn) && Holds(after, made, others) && forall y :: y in others ==> y.sn < sn
    ensures IsWrite(after, Range(made), off, off + left)
    ensures forall x :: x in after && x !in Range(made) <==> x in others
  {
    forall p | off <= p < off + left ensures SomeCovers(Range(made), p) {
      assert Covered(made, p);
      var e :| e in made && e.Covers(p);
      assert e in Range(made);
    }
  }

  lemma NoLaterIsNoneCrossed(made: seq<Extent>, others: seq<Extent>, after: seq<Extent>, off: nat, left: nat, sn: nat)
    requires EndToEnd(made, off, left, sn)
    requires forall x :: x in after && x !in Range(made) <==> x in others
    ensures StartsNoLater(after, Range(made)) <==> forall n :: n in made ==> !Crossed(others, n.logOff)
  {
    if n :| n in made && Crossed(others, n.logOff) {
      var y :| y in others && Straddles(y, n.logOff);
      assert n in Range(made) && y in after && n.Overlaps(y);
    }
    if n, x :| n in Range(made) && x in after && x !in Range(made) && x.length > 0 && n.Overlaps(x) && n.logOff > x.logOff {
      assert Straddles(x, n.logOff) && Crossed(others, n.logOff);
    }
  }

  ghost predicate NoneCrossed(made: seq<Extent>, others: seq<Extent>) {
    forall n :: n in made ==> !Crossed(others, n.logOff)
  }

  /** Everything in the list but the write's own extents. */
  function Others(arenas: set<nat>, es: seq<Extent>, k: nat, w: Write): seq<Extent>
    requires k <= |es|
  {
    Pieces(arenas, es[..k], w.off, w.End(), w.chunk + |w.runs|) + es[k..]
  }

  lemma ClearUnlessCrossed(arenas: set<nat>, es: seq<Extent>, k: nat, w: Write)
    requires k <= |es| && Fits(w.runs, w.len)
    ensures AllClear(arenas, es, k, w) <==> NoneCrossed(w.New(), Others(arenas, es, k, w))
  {
    var made, others, early, late, end := w.New(), Others(arenas, es, k, w), es[..k], es[k..], w.End();
    forall n | n in made ensures Crossed(others, n.logOff) <==> !ClearOf(arenas, early, late, end, n.logOff) {
      StartsInside(w, n);
      ClearAt(arenas, es, k, w, n.logOff);
    }
  }

  lemma ClearAt(arenas: set<nat>, es: seq<Extent>, k: nat, w: Write, s: nat)
    requires k <= |es| && w.off <= s < w.End()
    ensures Crossed(Others(arenas, es, k, w), s) <==> !ClearOf(arenas, es[..k], es[k..], w.End(), s)
  {
    var pieces := Pieces(arenas, es[..k], w.off, w.End(), w.chunk + |w.runs|);
    PiecesStraddle(arenas, es[..k], w.off, w.End(), w.chunk + |w.runs|, s);
    SplitStraddle(pieces, es[k..], s);
  }

  lemma StartsInside(w: Write, n: Extent)
    requires Fits(w.runs, w.len) && n in w.New()
    ensures w.off <= n.logOff < w.End()
  {
    NewEndToEnd(w.runs, w.off, w.len, w.chunk, w.sn, w.gen, w.node);
  }

  lemma OthersAreOlder(arenas: set<nat>, es: seq<Extent>, k: nat, w: Write)
    requires k <= |es| && forall x :: x in es ==> x.sn < w.sn
    ensures forall y :: y in Others(arenas, es, k, w) ==> y.sn < w.sn
  {
    PiecesKeepAge(arenas, es[..k], w.off, w.End(), w.chunk + |w.runs|, w.sn);
  }

  lemma ReadsBackUnlessCrossed(w: Write, others: seq<Extent>, after: seq<Extent>)
    requires Fits(w.runs, w.len) && Ordered(after) && Holds(after, w.New(), others)
    requires forall y :: y in others ==> y.sn < w.sn
    ensures ReadsBack(w, after) <==> NoneCrossed(w.New(), others)
  {
    var made := w.New();
    NewEndToEnd(w.runs, w.off, w.len, w.chunk, w.sn, w.gen, w.node);
    IsTheWrite(made, others, after, w.off, w.len, w.sn);
    ReadsBackIff(after, Range(made), w.off, w.End());
    NoLaterIsNoneCrossed(made, others, after, w.off, w.len, w.sn);
  }

  /** A write reads back, whatever its offset and whoever owns what it buries,
      exactly when the list is clear of it. */
  lemma WriteReadsBackIff(arenas: set<nat>, es: seq<Extent>, k: nat, w: Write, after: seq<Extent>)
    requires k <= |es| && Fits(w.runs, w.len) && LeavesPartly(arenas, es, k, w, after)
    requires forall x :: x in es ==> x.sn < w.sn
    ensures ReadsBack(w, after) <==> AllClear(arenas, es, k, w)
  {
    OthersAreOlder(arenas, es, k, w);
    ReadsBackUnlessCrossed(w, Others(arenas, es, k, w), after);
    ClearUnlessCrossed(arenas, es, k, w);
  }

  // --- Inputs on which it does not ----------------------------------------------------------

  lemma OneRun(run: Run, off: nat, left: nat, chunk: nat, sn: nat, gen: nat, node: Node)
    ensures NewExtents([run], off, left, chunk, sn, gen, node)
            == [Extent(chunk, sn, node, gen, off, run.diskOff, Min(run.length, left))]
  {
    assert [run][1..] == [];
  }

  /** A sub-block write inside one block of an extent: the tail, rounded down to
      its block, begins before the write and hides it. */
  lemma UnalignedWriteIsHidden(node: Node) returns (es: seq<Extent>, w: Write, after: seq<Extent>)
    ensures Good(es) && Fits(w.runs, w.len) && !Aligned(w.off) && AllOwned({0}, es, w.off, w.End())
    ensures LeavesPartly({0}, es, |es|, w, after) && !ReadsBack(w, after)
  {
    var ext := Extent(0, 0, node, 1, 0, 0, 4096);
    es := [ext];
    w := Write(100, 100, [Run(4096, 4096)], 1, 1, 1, node);
    var n := Extent(1, 1, node, 1, 100, 4096, 100);
    OneRun(w.runs[0], w.off, w.len, w.chunk, w.sn, w.gen, w.node);
    var head, tail := ext.(length := 100), ext.(chunk := 2);
    assert SplitAround(ext, 100, 200) == (Some(head), Some(ext));
    assert Survivors({0}, ext, 100, 200, 2) == [head, tail];
    assert es[..1] == es && es[1..] == [];
    assert Pieces({0}, es, 100, 200, 2) == [head, tail];
    after := [tail, head, n];
    WriteReadsBackIff({0}, es, 1, w, after);
    assert !Clear({0}, ext, 200, 100);
  }

  /** An aligned write into the middle of an extent this node does not own, or
      of one put off because the transaction was full: it is left whole. */
  lemma UnplannedExtentHides(arenas: set<nat>, node: Node, k: nat) returns (es: seq<Extent>, w: Write, after: seq<Extent>)
    requires k <= 1 && (0 in arenas ==> k == 0)
    ensures Good(es) && |es| == 1 && Fits(w.runs, w.len) && Aligned(w.off)
    ensures LeavesPartly(arenas, es, k, w, after) && !ReadsBack(w, after)
  {
    var ext := Extent(0, 0, node, 1, 0, 0, 8192);
    es := [ext];
    w := Write(4096, 4096, [Run(8192, 4096)], 1, 1, 1, node);
    var n := Extent(1, 1, node, 1, 4096, 8192, 4096);
    OneRun(w.runs[0], w.off, w.len, w.chunk, w.sn, w.gen, w.node);
    assert es[..0] == [] && es[0..] == es && es[..1] == es && es[1..] == [];
    assert k == 1 ==> Survivors(arenas, ext, 4096, 8192, 2) == [ext] && Pieces(arenas, es, 4096, 8192, 2) == [ext];
    after := [ext, n];
    WriteReadsBackIff(arenas, es, k, w, after);
    assert Straddles(ext, 4096) && (k == 1 ==> !Clear(arenas, ext, 8192, 4096));
    assert !ClearOf(arenas, es[..k], es[k..], 8192, 4096);
  }
}
