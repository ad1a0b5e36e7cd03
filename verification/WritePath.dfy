/** Planning a write: the extents it adds, what it leaves of the ones it buries,
    and the blocks that gives back (pkg/metadata/extent.go SplitAround and
    CoveredBlocks, internal/ipc/datapath.go planReclaim, internal/ipc/writeop.go). */
module WritePath {
  import opened Common
  import opened Extents

  /** Arena size in bytes; an arena is the unit of ownership of device space. */
  const ARENA: nat := 1073741824

  predicate Owns(arenas: set<nat>, diskOff: nat) {
    diskOff / ARENA in arenas
  }

  /** The device range lies in one arena of this node. */
  predicate InArena(arenas: set<nat>, off: nat, len: nat) {
    len > 0 && Owns(arenas, off) && (off + len - 1) / ARENA == off / ARENA
  }

  /** One contiguous span of device bytes handed out by the allocator. */
  datatype Run = Run(diskOff: nat, length: nat)

  /** The write over `[start, end)` reaches into the extent. */
  predicate Hits(e: Extent, start: nat, end: nat) {
    e.logOff < end && start < e.End()
  }

  /** The parts of `ext` a write over `[start, end)` leaves readable.  The tail's
      offset advances by the covered distance rounded down to a whole block. */
  function SplitAround(ext: Extent, start: nat, end: nat): (Option<Extent>, Option<Extent>)
    requires Hits(ext, start, end)
  {
    var head := if start > ext.logOff then Some(ext.(length := start - ext.logOff)) else None;
    var skip := (end - ext.logOff) / BLOCK * BLOCK;
    var tail := if end < ext.End()
                then Some(ext.(logOff := ext.logOff + skip, diskOff := ext.diskOff + skip, length := ext.length - skip))
                else None;
    (head, tail)
  }

  /** The device range `ext` gives up once split, in whole blocks. */
  function CoveredBlocks(ext: Extent, head: Option<Extent>, tail: Option<Extent>): (nat, nat)
    requires tail.Some? ==> tail.value.diskOff >= ext.diskOff
  {
    var first := if head.Some? then BlocksFor(head.value.length) else 0;
    var last := if tail.Some? then (tail.value.diskOff - ext.diskOff) / BLOCK else BlocksFor(ext.length);
    if last <= first then (0, 0) else (ext.diskOff + first * BLOCK, (last - first) * BLOCK)
  }

  /** The rewrite of one buried extent: the records that replace it (none means
      its record is deleted) and the device range the commit frees. */
  datatype Plan = Plan(puts: seq<Extent>, freeOff: nat, freeLen: nat)

  /** A survivor keeps the old record; the second of two goes under `next`.
      Nothing is planned for a range this node does not own, nor when the split
      gives nothing back. */
  function PlanReclaim(arenas: set<nat>, ext: Extent, start: nat, end: nat, next: nat): Option<Plan>
    requires Hits(ext, start, end)
  {
    if !Owns(arenas, ext.diskOff) then None else
      var (head, tail) := SplitAround(ext, start, end);
      if head.None? && tail.Some? && tail.value.logOff == ext.logOff then None else
        var (off, len) := CoveredBlocks(ext, head, tail);
        var puts :=
          if head.Some? && tail.Some? then [head.value, tail.value.(chunk := next)]
          else if head.Some? then [head.value]
          else if tail.Some? then [tail.value]
          else [];
        Some(Plan(puts, off, len))
  }

  /** What the list holds afterwards in place of one extent. */
  function Survivors(arenas: set<nat>, ext: Extent, start: nat, end: nat, next: nat): seq<Extent> {
    if !Hits(ext, start, end) then [ext] else
      match PlanReclaim(arenas, ext, start, end, next)
      case None => [ext]
      case Some(p) => p.puts
  }

  function NextChunk(arenas: set<nat>, ext: Extent, start: nat, end: nat, next: nat): nat {
    if Hits(ext, start, end) && PlanReclaim(arenas, ext, start, end, next).Some?
       && |PlanReclaim(arenas, ext, start, end, next).value.puts| == 2
    then next + 1 else next
  }

  /** What the list holds afterwards in place of all the existing extents. */
  function Pieces(arenas: set<nat>, es: seq<Extent>, start: nat, end: nat, next: nat): seq<Extent> {
    if es == [] then []
    else Survivors(arenas, es[0], start, end, next)
         + Pieces(arenas, es[1..], start, end, NextChunk(arenas, es[0], start, end, next))
  }

  /** The device blocks one buried extent gives back. */
  function Freed(arenas: set<nat>, ext: Extent, start: nat, end: nat): set<nat> {
    if !Hits(ext, start, end) then {} else
      match PlanReclaim(arenas, ext, start, end, 0)
      case None => {}
      case Some(p) => RangeBlocks(p.freeOff, p.freeLen)
  }

  function AllFreed(arenas: set<nat>, es: seq<Extent>, start: nat, end: nat): set<nat> {
    if es == [] then {} else Freed(arenas, es[0], start, end) + AllFreed(arenas, es[1..], start, end)
  }

  /** An owned extent that a write buries whole gives all its blocks back. */
  lemma {:induction false} BuriedIsFreed(arenas: set<nat>, es: seq<Extent>, start: nat, end: nat, i: nat)
    requires i < |es| && WellFormed(es[i]) && Owns(arenas, es[i].diskOff) && start <= es[i].logOff && es[i].End() <= end
    ensures Blocks(es[i]) <= AllFreed(arenas, es, start, end)
  {
    if i > 0 {
      BuriedIsFreed(arenas, es[1..], start, end, i - 1);
    }
  }

  function AllBlocks(es: seq<Extent>): set<nat> {
    if es == [] then {} else Blocks(es[0]) + AllBlocks(es[1..])
  }

  lemma {:induction false} BlocksAreSomeones(es: seq<Extent>, b: nat) returns (i: nat)
    requires b in AllBlocks(es)
    ensures i < |es| && b in Blocks(es[i])
  {
    if b in Blocks(es[0]) {
      i := 0;
    } else {
      i := BlocksAreSomeones(es[1..], b);
      i := i + 1;
    }
  }

  lemma {:induction false} OneOfAllBlocks(es: seq<Extent>, i: nat)
    requires i < |es|
    ensures Blocks(es[i]) <= AllBlocks(es)
  {
    if i > 0 {
      OneOfAllBlocks(es[1..], i - 1);
    }
  }

  lemma {:induction false} BlocksOfJoin(a: seq<Extent>, b: seq<Extent>)
    ensures AllBlocks(a + b) == AllBlocks(a) + AllBlocks(b)
  {
    if a == [] {
      assert a + b == b;
    } else {
      assert (a + b)[1..] == a[1..] + b;
      BlocksOfJoin(a[1..], b);
    }
  }

  /** The first record's blocks are none of the others'. */
  lemma HeadBlocksApart(es: seq<Extent>)
    requires Pairwise(es) && |es| > 0
    ensures Blocks(es[0]) !! AllBlocks(es[1..])
  {
    forall b | b in AllBlocks(es[1..]) ensures b !in Blocks(es[0]) {
      var i := BlocksAreSomeones(es[1..], b);
      assert Compatible(es[0], es[i + 1]);
    }
  }

  // ---- one extent ----

  /** An owned extent's survivor: untouched, cut to its head, or cut to its tail. */
  ghost predicate IsPieceAt(x: Extent, ext: Extent, start: nat, end: nat, cut: nat) {
    && x.sn == ext.sn && x.node == ext.node && x.gen == ext.gen
    && x.diskOff + ext.logOff == ext.diskOff + x.logOff
    && (|| (!Hits(ext, start, end) && x == ext)
        || (Hits(ext, start, end) && x.logOff == ext.logOff && x.End() == start && start > ext.logOff)
        || (Hits(ext, start, end) && x.logOff == cut && x.End() == ext.End() && end < ext.End()))
  }

  ghost predicate IsPiece(x: Extent, ext: Extent, start: nat, end: nat) {
    IsPieceAt(x, ext, start, end, end / BLOCK * BLOCK)
  }

  lemma RoundedTail(ext: Extent, start: nat, end: nat)
    requires WellFormed(ext) && Aligned(start) && Hits(ext, start, end) && start < end
    ensures ext.logOff + (end - ext.logOff) / BLOCK * BLOCK == end / BLOCK * BLOCK
    ensures start <= end / BLOCK * BLOCK <= end
  {
  }

  lemma SurvivorIsPiece(arenas: set<nat>, ext: Extent, start: nat, end: nat, next: nat)
    requires WellFormed(ext) && Aligned(start) && start < end
    requires Hits(ext, start, end) ==> Owns(arenas, ext.diskOff)
    ensures forall x :: x in Survivors(arenas, ext, start, end, next) ==>
                          IsPiece(x, ext, start, end) && WellFormed(x) && (x.chunk == ext.chunk || x.chunk == next)
    ensures NextChunk(arenas, ext, start, end, next) > next
            || forall x :: x in Survivors(arenas, ext, start, end, next) ==> x.chunk == ext.chunk
  {
    if Hits(ext, start, end) {
      RoundedTail(ext, start, end);
    }
  }

  /** A byte the write does not cover stays with the piece that keeps it. */
  lemma SurvivorKeeps(arenas: set<nat>, ext: Extent, start: nat, end: nat, next: nat, p: nat)
    requires WellFormed(ext) && Aligned(start) && start < end
    requires Hits(ext, start, end) ==> Owns(arenas, ext.diskOff)
    requires ext.Covers(p) && !(start <= p < end)
    ensures exists x :: x in Survivors(arenas, ext, start, end, next) && x.Covers(p)
  {
    var s := Survivors(arenas, ext, start, end, next);
    if Hits(ext, start, end) {
      RoundedTail(ext, start, end);
      assert p < start ==> s[0].Covers(p);
      assert p >= end ==> s[|s| - 1].Covers(p);
    } else {
      assert s[0] == ext;
    }
  }

  lemma PieceBlocks(x: Extent, ext: Extent, start: nat, end: nat)
    requires WellFormed(ext) && WellFormed(x) && IsPiece(x, ext, start, end)
    ensures Blocks(x) <= Blocks(ext)
  {
    assert x.logOff >= ext.logOff && x.End() <= ext.End();
    var k := (x.logOff - ext.logOff) / BLOCK;
    assert x.diskOff / BLOCK == ext.diskOff / BLOCK + k;
    assert k + BlocksFor(x.length) <= BlocksFor(ext.length);
  }

  /** A split divides the old blocks exactly into the survivors' and the freed. */
  lemma SplitPartition(arenas: set<nat>, ext: Extent, start: nat, end: nat, next: nat)
    requires WellFormed(ext) && Aligned(start) && start < end
    requires Hits(ext, start, end) ==> Owns(arenas, ext.diskOff)
    ensures forall b :: b in Blocks(ext) <==>
              b in AllBlocks(Survivors(arenas, ext, start, end, next)) || b in Freed(arenas, ext, start, end)
    ensures AllBlocks(Survivors(arenas, ext, start, end, next)) !! Freed(arenas, ext, start, end)
  {
    var s := Survivors(arenas, ext, start, end, next);
    if Hits(ext, start, end) {
      RoundedTail(ext, start, end);
      SurvivorSpans(arenas, ext, start, end, next);
    } else {
      assert AllBlocks(s) == Blocks(ext);
    }
  }

  /** The three spans of a split, counted in blocks from the start of the extent. */
  lemma SurvivorSpans(arenas: set<nat>, ext: Extent, start: nat, end: nat, next: nat)
    requires WellFormed(ext) && Aligned(start) && start < end
    requires Hits(ext, start, end) && Owns(arenas, ext.diskOff)
    ensures var at, n := ext.diskOff / BLOCK, BlocksFor(ext.length);
            var h := if start > ext.logOff then (start - ext.logOff) / BLOCK else 0;
            var t := if end < ext.End() then (end - ext.logOff) / BLOCK else n;
            && h <= t <= n
            && AllBlocks(Survivors(arenas, ext, start, end, next)) == Span(at, h) + Span(at + t, n - t)
            && Freed(arenas, ext, start, end) == Span(at + h, t - h)
  {
    var (head, tail) := SplitAround(ext, start, end);
    HeadTailBlocks(ext, start, end, next);
    var s := Survivors(arenas, ext, start, end, next);
    if head.None? && tail.Some? && tail.value.logOff == ext.logOff {
      assert s == [ext];
      BlocksOfFew([ext]);
    } else {
      FreedSpan(arenas, ext, start, end);
      if head.Some? && tail.Some? {
        BlocksOfFew([head.value, tail.value.(chunk := next)]);
      } else if head.Some? {
        BlocksOfFew([head.value]);
      } else if tail.Some? {
        BlocksOfFew([tail.value]);
      }
    }
  }

  lemma HeadBlocks(ext: Extent, start: nat, end: nat)
    requires WellFormed(ext) && Aligned(start) && start < end && Hits(ext, start, end)
    requires SplitAround(ext, start, end).0.Some?
    ensures var k := (start - ext.logOff) / BLOCK;
            && k <= BlocksFor(ext.length)
            && Blocks(SplitAround(ext, start, end).0.value) == Span(ext.diskOff / BLOCK, k)
  {
    assert BlocksFor(start - ext.logOff) == (start - ext.logOff) / BLOCK;
  }

  lemma TailBlocks(ext: Extent, start: nat, end: nat)
    requires WellFormed(ext) && Aligned(start) && start < end && Hits(ext, start, end)
    requires SplitAround(ext, start, end).1.Some?
    ensures var at, n, t := ext.diskOff / BLOCK, BlocksFor(ext.length), (end - ext.logOff) / BLOCK;
            var tail := SplitAround(ext, start, end).1.value;
            && t <= n
            && (tail.logOff == ext.logOff ==> t == 0)
            && Blocks(tail) == Span(at + t, n - t)
  {
    var at, n, t := ext.diskOff / BLOCK, BlocksFor(ext.length), (end - ext.logOff) / BLOCK;
    var tail := SplitAround(ext, start, end).1.value;
    assert tail.diskOff / BLOCK == at + t;
    assert BlocksFor(tail.length) == n - t;
  }

  lemma HeadTailBlocks(ext: Extent, start: nat, end: nat, next: nat)
    requires WellFormed(ext) && Aligned(start) && start < end && Hits(ext, start, end)
    ensures var at, n := ext.diskOff / BLOCK, BlocksFor(ext.length);
            var (head, tail) := SplitAround(ext, start, end);
            && (head.Some? ==> Blocks(head.value) == Span(at, (start - ext.logOff) / BLOCK)
                               && (start - ext.logOff) / BLOCK <= n)
            && (tail.Some? ==> var t := (end - ext.logOff) / BLOCK;
                               && t <= n
                               && (start > ext.logOff ==> (start - ext.logOff) / BLOCK <= t)
                               && (tail.value.logOff == ext.logOff ==> t == 0)
                               && Blocks(tail.value) == Span(at + t, n - t)
                               && Blocks(tail.value.(chunk := next)) == Span(at + t, n - t))
  {
    var (head, tail) := SplitAround(ext, start, end);
    if head.Some? {
      HeadBlocks(ext, start, end);
    }
    if tail.Some? {
      TailBlocks(ext, start, end);
    }
  }

  lemma BlocksOfFew(s: seq<Extent>)
    ensures |s| == 0 ==> AllBlocks(s) == {}
    ensures |s| == 1 ==> AllBlocks(s) == Blocks(s[0])
    ensures |s| == 2 ==> AllBlocks(s) == Blocks(s[0]) + Blocks(s[1])
  {
  }

  lemma FreedSpan(arenas: set<nat>, ext: Extent, start: nat, end: nat)
    requires WellFormed(ext) && Aligned(start) && start < end
    requires Hits(ext, start, end) && PlanReclaim(arenas, ext, start, end, 0).Some?
    ensures var h := if start > ext.logOff then (start - ext.logOff) / BLOCK else 0;
            var t := if end < ext.End() then (end - ext.logOff) / BLOCK else BlocksFor(ext.length);
            h <= t && Freed(arenas, ext, start, end) == Span(ext.diskOff / BLOCK + h, t - h)
  {
    var (head, tail) := SplitAround(ext, start, end);
    var h := if start > ext.logOff then (start - ext.logOff) / BLOCK else 0;
    var t := if end < ext.End() then (end - ext.logOff) / BLOCK else BlocksFor(ext.length);
    assert head.Some? ==> BlocksFor(head.value.length) == h;
    assert tail.Some? ==> (tail.value.diskOff - ext.diskOff) / BLOCK == t;
    var (off, len) := CoveredBlocks(ext, head, tail);
    assert h < t ==> off / BLOCK == ext.diskOff / BLOCK + h && BlocksFor(len) == t - h;
  }

  // ---- pairs ----

  lemma PiecesOfOne(arenas: set<nat>, ext: Extent, start: nat, end: nat, next: nat)
    requires WellFormed(ext) && Aligned(start) && start < end && ext.chunk < next
    requires Hits(ext, start, end) ==> Owns(arenas, ext.diskOff)
    requires |Survivors(arenas, ext, start, end, next)| == 2
    ensures Compatible(Survivors(arenas, ext, start, end, next)[0], Survivors(arenas, ext, start, end, next)[1])
  {
    RoundedTail(ext, start, end);
    var s := Survivors(arenas, ext, start, end, next);
    assert s[0].End() == start && s[1].logOff == end / BLOCK * BLOCK;
    assert s[0].diskOff / BLOCK + BlocksFor(s[0].length) <= s[1].diskOff / BLOCK;
  }

  lemma PiecesStayLayered(x: Extent, a: Extent, y: Extent, b: Extent, start: nat, end: nat, cut: nat)
    requires start <= cut <= end && a.length > 0 && b.length > 0
    requires cut < a.logOff ==> !Hits(a, start, end)
    requires cut < b.logOff ==> !Hits(b, start, end)
    requires Layered(a, b) && Layered(b, a)
    requires IsPieceAt(x, a, start, end, cut) && IsPieceAt(y, b, start, end, cut)
    ensures Layered(x, y) && Layered(y, x)
  {
    assert x.Overlaps(y) ==> a.Overlaps(b);
  }

  lemma PiecesOfTwo(x: Extent, a: Extent, y: Extent, b: Extent, start: nat, end: nat)
    requires WellFormed(a) && WellFormed(b) && WellFormed(x) && WellFormed(y)
    requires Aligned(start) && start < end
    requires Layered(a, b) && Layered(b, a) && Blocks(a) !! Blocks(b)
    requires IsPiece(x, a, start, end) && IsPiece(y, b, start, end)
    ensures Layered(x, y) && Layered(y, x) && Blocks(x) !! Blocks(y)
  {
    PieceBlocks(x, a, start, end);
    PieceBlocks(y, b, start, end);
    CutPoint(a, start, end);
    CutPoint(b, start, end);
    PiecesStayLayered(x, a, y, b, start, end, end / BLOCK * BLOCK);
  }

  lemma CutPoint(a: Extent, start: nat, end: nat)
    requires WellFormed(a) && Aligned(start) && start < end
    ensures start <= end / BLOCK * BLOCK <= end
    ensures Hits(a, start, end) ==> a.logOff <= end / BLOCK * BLOCK
  {
  }

  // ---- the whole list ----

  ghost predicate AllOwned(arenas: set<nat>, es: seq<Extent>, start: nat, end: nat) {
    forall i :: 0 <= i < |es| && Hits(es[i], start, end) ==> Owns(arenas, es[i].diskOff)
  }

  ghost predicate ChunksBelow(es: seq<Extent>, next: nat) {
    forall i :: 0 <= i < |es| ==> es[i].chunk < next
  }

  /** `x` survives from some extent of the list. */
  ghost predicate Survives(x: Extent, es: seq<Extent>, start: nat, end: nat, next: nat) {
    exists k :: 0 <= k < |es| && IsPiece(x, es[k], start, end) && (x.chunk == es[k].chunk || x.chunk >= next)
  }

  lemma {:induction false} PiecesSurvive(arenas: set<nat>, es: seq<Extent>, start: nat, end: nat, next: nat)
    requires AllWell(es)
    requires Aligned(start) && start < end && AllOwned(arenas, es, start, end)
    ensures forall x :: x in Pieces(arenas, es, start, end, next) ==>
                          WellFormed(x) && Survives(x, es, start, end, next)
  {
    if es != [] {
      var next' := NextChunk(arenas, es[0], start, end, next);
      var s := Survivors(arenas, es[0], start, end, next);
      var rest := Pieces(arenas, es[1..], start, end, next');
      SurvivorIsPiece(arenas, es[0], start, end, next);
      PiecesSurvive(arenas, es[1..], start, end, next');
      forall x | x in Pieces(arenas, es, start, end, next)
        ensures WellFormed(x) && Survives(x, es, start, end, next)
      {
        assert x in s || x in rest;
        if x in s {
          assert IsPiece(x, es[0], start, end);
        } else {
          var k :| 0 <= k < |es[1..]| && IsPiece(x, es[1..][k], start, end)
                   && (x.chunk == es[1..][k].chunk || x.chunk >= next');
          assert IsPiece(x, es[k + 1], start, end);
        }
      }
    }
  }

  lemma {:induction false} PiecesPairwise(arenas: set<nat>, es: seq<Extent>, start: nat, end: nat, next: nat)
    requires Pairwise(es) && ChunksBelow(es, next)
    requires Aligned(start) && start < end && AllOwned(arenas, es, start, end)
    ensures Pairwise(Pieces(arenas, es, start, end, next))
  {
    if es != [] {
      var next' := NextChunk(arenas, es[0], start, end, next);
      var s := Survivors(arenas, es[0], start, end, next);
      var rest := Pieces(arenas, es[1..], start, end, next');
      SurvivorIsPiece(arenas, es[0], start, end, next);
      PiecesPairwise(arenas, es[1..], start, end, next');
      PiecesSurvive(arenas, es[1..], start, end, next');
      if |s| == 2 {
        PiecesOfOne(arenas, es[0], start, end, next);
      }
      forall x, y | x in s && y in rest
        ensures Compatible(x, y)
      {
        HeadAgainstRest(arenas, es, start, end, next, x, y);
      }
      JoinPairwise(s, rest);
    }
  }

  lemma HeadAgainstRest(arenas: set<nat>, es: seq<Extent>, start: nat, end: nat, next: nat, x: Extent, y: Extent)
    requires Pairwise(es) && ChunksBelow(es, next) && |es| > 0
    requires Aligned(start) && start < end && AllOwned(arenas, es, start, end)
    requires x in Survivors(arenas, es[0], start, end, next) && WellFormed(y)
    requires Survives(y, es[1..], start, end, NextChunk(arenas, es[0], start, end, next))
    ensures Compatible(x, y)
  {
    SurvivorIsPiece(arenas, es[0], start, end, next);
    var k :| 0 <= k < |es[1..]| && IsPiece(y, es[1..][k], start, end)
             && (y.chunk == es[1..][k].chunk || y.chunk >= NextChunk(arenas, es[0], start, end, next));
    assert Compatible(es[0], es[k + 1]);
    PiecesOfTwo(x, es[0], y, es[k + 1], start, end);
  }

  lemma JoinPairwise(a: seq<Extent>, b: seq<Extent>)
    requires Pairwise(a) && Pairwise(b)
    requires forall x, y :: x in a && y in b ==> Compatible(x, y)
    ensures Pairwise(a + b)
  {
    var c := a + b;
    forall i, j | 0 <= i < j < |c| ensures Compatible(c[i], c[j]) {
      if i < |a| && j >= |a| {
        assert a[i] in a && b[j - |a|] in b;
      } else if i >= |a| {
        assert c[i] == b[i - |a|] && c[j] == b[j - |a|];
      }
    }
  }

  // ---- the extents a write adds ----

  /** Runs that hold `left` bytes, the last one padded to whole blocks. */
  predicate Fits(runs: seq<Run>, left: nat) {
    if runs == [] then left == 0
    else
      && left > 0
      && runs[0].length > 0 && Aligned(runs[0].length) && Aligned(runs[0].diskOff)
      && runs[0].length < left + BLOCK
      && Fits(runs[1..], if runs[0].length >= left then 0 else left - runs[0].length)
  }

  /** One extent per run, in order; the last covers only the real bytes. */
  function NewExtents(runs: seq<Run>, off: nat, left: nat, chunk: nat, sn: nat, gen: nat, node: Node): seq<Extent> {
    if runs == [] then []
    else
      var n := Min(runs[0].length, left);
      [Extent(chunk, sn, node, gen, off, runs[0].diskOff, n)]
      + NewExtents(runs[1..], off + n, left - n, chunk + 1, sn, gen, node)
  }

  function RunBlocks(runs: seq<Run>): set<nat> {
    if runs == [] then {} else RangeBlocks(runs[0].diskOff, runs[0].length) + RunBlocks(runs[1..])
  }

  predicate DisjointSpans(runs: seq<Run>) {
    if runs == [] then true
    else RangeBlocks(runs[0].diskOff, runs[0].length) !! RunBlocks(runs[1..]) && DisjointSpans(runs[1..])
  }

  /** The device address of the `k`-th byte of the payload. */
  function RunAddr(runs: seq<Run>, k: nat): nat {
    if runs == [] then 0
    else if k < runs[0].length then runs[0].diskOff + k
    else RunAddr(runs[1..], k - runs[0].length)
  }

  /** A new extent lies inside the write, on the write's own blocks. */
  ghost predicate IsNew(e: Extent, runs: seq<Run>, off: nat, left: nat, chunk: nat, sn: nat) {
    && WellFormed(e) && e.sn == sn
    && off <= e.logOff && e.End() <= off + left
    && chunk <= e.chunk < chunk + |runs|
    && Blocks(e) <= RunBlocks(runs)
  }

  lemma FirstNew(runs: seq<Run>, left: nat)
    requires Fits(runs, left) && runs != []
    ensures var n := Min(runs[0].length, left);
            && n > 0 && Fits(runs[1..], left - n)
            && (left > n ==> Aligned(n))
            && BlocksFor(n) == BlocksFor(runs[0].length)
            && (left == n ==> runs[1..] == [])
  {
  }

  lemma {:induction false} NewAreNew(runs: seq<Run>, off: nat, left: nat, chunk: nat, sn: nat, gen: nat, node: Node)
    requires Fits(runs, left) && (left > 0 ==> Aligned(off))
    ensures forall e :: e in NewExtents(runs, off, left, chunk, sn, gen, node) ==> IsNew(e, runs, off, left, chunk, sn)
  {
    if runs != [] {
      FirstNew(runs, left);
      var n := Min(runs[0].length, left);
      NewAreNew(runs[1..], off + n, left - n, chunk + 1, sn, gen, node);
    }
  }

  lemma {:induction false} NewPairwise(runs: seq<Run>, off: nat, left: nat, chunk: nat, sn: nat, gen: nat, node: Node)
    requires Fits(runs, left) && (left > 0 ==> Aligned(off)) && DisjointSpans(runs)
    ensures Pairwise(NewExtents(runs, off, left, chunk, sn, gen, node))
  {
    if runs != [] {
      FirstNew(runs, left);
      var n := Min(runs[0].length, left);
      var e := Extent(chunk, sn, node, gen, off, runs[0].diskOff, n);
      var rest := NewExtents(runs[1..], off + n, left - n, chunk + 1, sn, gen, node);
      NewPairwise(runs[1..], off + n, left - n, chunk + 1, sn, gen, node);
      NewAreNew(runs[1..], off + n, left - n, chunk + 1, sn, gen, node);
      forall y | y in rest ensures Compatible(e, y) {
        assert IsNew(y, runs[1..], off + n, left - n, chunk + 1, sn);
      }
      JoinPairwise([e], rest);
    }
  }

  /** Every byte of the write lies in a new extent that names its device byte. */
  lemma {:induction false} NewCovers(runs: seq<Run>, off: nat, left: nat, chunk: nat, sn: nat, gen: nat, node: Node, p: nat)
    returns (e: Extent)
    requires Fits(runs, left) && off <= p < off + left
    ensures e in NewExtents(runs, off, left, chunk, sn, gen, node)
    ensures e.Covers(p) && e.Addr(p) == RunAddr(runs, p - off)
  {
    var n := Min(runs[0].length, left);
    if p < off + n {
      e := Extent(chunk, sn, node, gen, off, runs[0].diskOff, n);
    } else {
      e := NewCovers(runs[1..], off + n, left - n, chunk + 1, sn, gen, node, p);
    }
  }

  // ---- the list a write leaves ----

  /** One write: where, how long, on which runs, and how it is stamped. */
  datatype Write = Write(off: nat, len: nat, runs: seq<Run>, chunk: nat, sn: nat, gen: nat, node: Node)
  {
    function End(): nat {
      off + len
    }

    function New(): seq<Extent> {
      NewExtents(runs, off, len, chunk, sn, gen, node)
    }
  }

  /** The records after the write, in no particular order. */
  function After(arenas: set<nat>, es: seq<Extent>, w: Write): seq<Extent> {
    w.New() + Pieces(arenas, es, w.off, w.End(), w.chunk + |w.runs|)
  }

  /** What planning relies on: an aligned offset, numbers above every one in
      use, runs that fit the payload and share no block with the file. */
  ghost predicate Plannable(arenas: set<nat>, es: seq<Extent>, w: Write) {
    && Aligned(w.off) && w.len > 0
    && Fits(w.runs, w.len) && DisjointSpans(w.runs)
    && ChunksBelow(es, w.chunk)
    && (forall i :: 0 <= i < |es| ==> es[i].sn < w.sn)
    && AllOwned(arenas, es, w.off, w.End())
    && RunBlocks(w.runs) !! AllBlocks(es)
  }

  lemma NewAgainstPiece(ext: Extent, w: Write, n: Extent, x: Extent)
    requires WellFormed(ext) && WellFormed(x) && Aligned(w.off) && w.len > 0
    requires ext.chunk < w.chunk && ext.sn < w.sn && RunBlocks(w.runs) !! Blocks(ext)
    requires IsNew(n, w.runs, w.off, w.len, w.chunk, w.sn)
    requires IsPiece(x, ext, w.off, w.End()) && (x.chunk == ext.chunk || x.chunk >= w.chunk + |w.runs|)
    ensures Compatible(n, x)
  {
    PieceBlocks(x, ext, w.off, w.End());
    CutPoint(ext, w.off, w.End());
  }

  lemma NewAgainstSurvivor(arenas: set<nat>, es: seq<Extent>, w: Write, n: Extent, x: Extent)
    requires AllWell(es) && Plannable(arenas, es, w) && WellFormed(x)
    requires IsNew(n, w.runs, w.off, w.len, w.chunk, w.sn)
    requires Survives(x, es, w.off, w.End(), w.chunk + |w.runs|)
    ensures Compatible(n, x)
  {
    var k :| 0 <= k < |es| && IsPiece(x, es[k], w.off, w.End())
             && (x.chunk == es[k].chunk || x.chunk >= w.chunk + |w.runs|);
    OneOfAllBlocks(es, k);
    NewAgainstPiece(es[k], w, n, x);
  }

  /** A write on an aligned offset, over extents this node owns, keeps the list
      good: the newer extents start no later than what they overlap, no two
      records share a block, and no chunk number is used twice. */
  lemma WriteKeepsPairwise(arenas: set<nat>, es: seq<Extent>, w: Write)
    requires Pairwise(es) && Plannable(arenas, es, w)
    ensures Pairwise(After(arenas, es, w))
  {
    var next := w.chunk + |w.runs|;
    var pieces := Pieces(arenas, es, w.off, w.End(), next);
    NewPairwise(w.runs, w.off, w.len, w.chunk, w.sn, w.gen, w.node);
    PiecesPairwise(arenas, es, w.off, w.End(), next);
    forall n, x | n in w.New() && x in pieces
      ensures Compatible(n, x)
    {
      NewAreNew(w.runs, w.off, w.len, w.chunk, w.sn, w.gen, w.node);
      PiecesSurvive(arenas, es, w.off, w.End(), next);
      NewAgainstSurvivor(arenas, es, w, n, x);
    }
    JoinPairwise(w.New(), pieces);
  }

  lemma {:induction false} PieceKeepsByte(arenas: set<nat>, es: seq<Extent>, start: nat, end: nat, next: nat, k: nat, p: nat)
    returns (x: Extent)
    requires AllWell(es)
    requires Aligned(start) && start < end && AllOwned(arenas, es, start, end)
    requires k < |es| && es[k].Covers(p) && !(start <= p < end)
    ensures x in Pieces(arenas, es, start, end, next)
    ensures x.Covers(p) && x.sn == es[k].sn && x.Addr(p) == es[k].Addr(p)
  {
    var next' := NextChunk(arenas, es[0], start, end, next);
    if k == 0 {
      SurvivorKeeps(arenas, es[0], start, end, next, p);
      SurvivorIsPiece(arenas, es[0], start, end, next);
      x :| x in Survivors(arenas, es[0], start, end, next) && x.Covers(p);
    } else {
      x := PieceKeepsByte(arenas, es[1..], start, end, next', k - 1, p);
    }
  }

  /** A record of the list after a write: one of the write's own, or what is
      left of one before. */
  ghost predicate Origin(es: seq<Extent>, w: Write, f: Extent) {
    || (f.sn == w.sn && w.off <= f.logOff && f.End() <= w.End())
    || (exists k :: 0 <= k < |es| && WellFormed(es[k]) && IsPiece(f, es[k], w.off, w.End()))
  }

  /** `after` is the list a planned write leaves. */
  ghost predicate Leaves(arenas: set<nat>, es: seq<Extent>, w: Write, after: seq<Extent>) {
    Ordered(after) && Holds(after, w.New(), Pieces(arenas, es, w.off, w.End(), w.chunk + |w.runs|))
  }

  lemma NewOriginate(es: seq<Extent>, w: Write)
    requires Aligned(w.off) && Fits(w.runs, w.len)
    ensures forall f :: f in w.New() ==> Origin(es, w, f) && f.sn == w.sn
  {
    NewAreNew(w.runs, w.off, w.len, w.chunk, w.sn, w.gen, w.node);
  }

  lemma PiecesOriginate(arenas: set<nat>, es: seq<Extent>, w: Write, next: nat)
    requires AllWell(es) && Aligned(w.off) && w.len > 0 && AllOwned(arenas, es, w.off, w.End())
    ensures forall f :: f in Pieces(arenas, es, w.off, w.End(), next) ==> Origin(es, w, f)
  {
    PiecesSurvive(arenas, es, w.off, w.End(), next);
  }

  lemma AfterOriginates(arenas: set<nat>, es: seq<Extent>, w: Write, after: seq<Extent>)
    requires AllWell(es) && Plannable(arenas, es, w) && Leaves(arenas, es, w, after)
    ensures forall f :: f in after ==> Origin(es, w, f)
  {
    NewOriginate(es, w);
    PiecesOriginate(arenas, es, w, w.chunk + |w.runs|);
    BothOriginate(es, w, w.New(), Pieces(arenas, es, w.off, w.End(), w.chunk + |w.runs|), after);
  }

  lemma BothOriginate(es: seq<Extent>, w: Write, a: seq<Extent>, b: seq<Extent>, c: seq<Extent>)
    requires Holds(c, a, b)
    requires forall f :: f in a ==> Origin(es, w, f)
    requires forall f :: f in b ==> Origin(es, w, f)
    ensures forall f :: f in c ==> Origin(es, w, f)
  {
  }

  /** A record of the write itself outranks everything it left behind. */
  lemma NewIsTop(es: seq<Extent>, w: Write, after: seq<Extent>, p: nat, n: Extent)
    requires Good(after) && n in after && n.Covers(p) && n.sn == w.sn
    requires forall i :: 0 <= i < |es| ==> es[i].sn < w.sn
    requires forall f :: f in after ==> Origin(es, w, f)
    ensures FirstCovering(after, p) == Some(n)
  {
    TopCovers(after, p, n);
  }

  lemma PieceOf(es: seq<Extent>, w: Write, p: nat, f: Extent) returns (k: nat)
    requires Origin(es, w, f) && f.Covers(p) && !(w.off <= p < w.End())
    requires Aligned(w.off) && w.len > 0
    ensures k < |es| && es[k].Covers(p) && es[k].sn == f.sn
  {
    k :| 0 <= k < |es| && WellFormed(es[k]) && IsPiece(f, es[k], w.off, w.End());
    CutPoint(es[k], w.off, w.End());
  }

  /** Outside the write the piece of the newest extent outranks other pieces. */
  lemma PieceIsTop(es: seq<Extent>, w: Write, after: seq<Extent>, p: nat, e: Extent, x: Extent)
    requires Good(after) && x in after && x.Covers(p) && x.sn == e.sn
    requires Newest(es, p, e) && !(w.off <= p < w.End())
    requires Aligned(w.off) && w.len > 0
    requires forall f :: f in after ==> Origin(es, w, f)
    ensures FirstCovering(after, p) == Some(x)
  {
    forall f | f in after && f.Covers(p) ensures f.sn <= x.sn {
      var k := PieceOf(es, w, p, f);
      assert es[k] in es;
    }
    TopCovers(after, p, x);
  }

  lemma StillHole(es: seq<Extent>, w: Write, after: seq<Extent>, p: nat)
    requires FirstCovering(es, p).None? && !(w.off <= p < w.End())
    requires Aligned(w.off) && w.len > 0
    requires forall f :: f in after ==> Origin(es, w, f)
    ensures FirstCovering(after, p).None?
  {
    if FirstCovering(after, p).Some? {
      var k := PieceOf(es, w, p, FirstCovering(after, p).value);
    }
  }

  /** Reading after a write is the old contents overlaid with the new bytes: each
      byte of the write resolves to its own run ... */
  lemma WrittenBytes(arenas: set<nat>, es: seq<Extent>, w: Write, after: seq<Extent>, p: nat)
    requires Pairwise(es) && Plannable(arenas, es, w) && Good(after) && Leaves(arenas, es, w, after)
    requires w.off <= p < w.End()
    ensures FirstCovering(after, p).Some?
    ensures FirstCovering(after, p).value.Addr(p) == RunAddr(w.runs, p - w.off)
  {
    AfterOriginates(arenas, es, w, after);
    NewOriginate(es, w);
    var n := NewCovers(w.runs, w.off, w.len, w.chunk, w.sn, w.gen, w.node, p);
    NewIsTop(es, w, after, p, n);
  }

  lemma NewestByteKept(arenas: set<nat>, es: seq<Extent>, w: Write, after: seq<Extent>, p: nat, e: Extent)
    requires AllWell(es) && Plannable(arenas, es, w) && Good(after) && Leaves(arenas, es, w, after)
    requires !(w.off <= p < w.End()) && Newest(es, p, e)
    ensures FirstCovering(after, p).Some? && FirstCovering(after, p).value.Addr(p) == e.Addr(p)
  {
    AfterOriginates(arenas, es, w, after);
    var k :| 0 <= k < |es| && es[k] == e;
    var x := PieceKeepsByte(arenas, es, w.off, w.End(), w.chunk + |w.runs|, k, p);
    PieceIsTop(es, w, after, p, e, x);
  }

  /** ... and every other byte to the device byte it had. */
  lemma OtherBytes(arenas: set<nat>, es: seq<Extent>, w: Write, after: seq<Extent>, p: nat)
    requires Good(es) && Plannable(arenas, es, w) && Good(after) && Leaves(arenas, es, w, after)
    requires !(w.off <= p < w.End())
    ensures FirstCovering(after, p).Some? == FirstCovering(es, p).Some?
    ensures FirstCovering(es, p).Some? ==>
              FirstCovering(after, p).value.Addr(p) == FirstCovering(es, p).value.Addr(p)
  {
    if FirstCovering(es, p).Some? {
      FirstIsNewest(es, p);
      NewestByteKept(arenas, es, w, after, p, FirstCovering(es, p).value);
    } else {
      AfterOriginates(arenas, es, w, after);
      StillHole(es, w, after, p);
    }
  }

  /** The list a planned write leaves is good. */
  lemma WriteKeepsGood(arenas: set<nat>, es: seq<Extent>, w: Write, after: seq<Extent>)
    requires Pairwise(es) && Plannable(arenas, es, w) && Leaves(arenas, es, w, after)
    ensures Good(after)
  {
    WriteKeepsPairwise(arenas, es, w);
    ReorderKeepsPairwise(after, w.New(), Pieces(arenas, es, w.off, w.End(), w.chunk + |w.runs|));
  }

  // ---- what a write does to the file's blocks ----

  /** `kept` and `freed` share nothing and together are `whole`. */
  ghost predicate Divides(kept: set<nat>, freed: set<nat>, whole: set<nat>) {
    kept + freed == whole && kept !! freed
  }

  /** Freed blocks and surviving blocks divide the blocks of the list. */
  lemma {:induction false} PiecesPartition(arenas: set<nat>, es: seq<Extent>, start: nat, end: nat, next: nat)
    requires Pairwise(es) && Aligned(start) && start < end && AllOwned(arenas, es, start, end)
    ensures Divides(AllBlocks(Pieces(arenas, es, start, end, next)), AllFreed(arenas, es, start, end), AllBlocks(es))
  {
    if es != [] {
      var next' := NextChunk(arenas, es[0], start, end, next);
      PiecesPartition(arenas, es[1..], start, end, next');
      SplitPartition(arenas, es[0], start, end, next);
      BlocksOfJoin(Survivors(arenas, es[0], start, end, next), Pieces(arenas, es[1..], start, end, next'));
      HeadBlocksApart(es);
    }
  }

  lemma {:induction false} NewBlocks(runs: seq<Run>, off: nat, left: nat, chunk: nat, sn: nat, gen: nat, node: Node)
    requires Fits(runs, left)
    ensures AllBlocks(NewExtents(runs, off, left, chunk, sn, gen, node)) == RunBlocks(runs)
  {
    if runs != [] {
      FirstNew(runs, left);
      var n := Min(runs[0].length, left);
      NewBlocks(runs[1..], off + n, left - n, chunk + 1, sn, gen, node);
      var all := NewExtents(runs, off, left, chunk, sn, gen, node);
      assert all[1..] == NewExtents(runs[1..], off + n, left - n, chunk + 1, sn, gen, node);
      assert Blocks(all[0]) == RangeBlocks(runs[0].diskOff, runs[0].length);
    }
  }

  lemma SameRecordsSameBlocks(c: seq<Extent>, a: seq<Extent>)
    requires forall x :: x in c ==> x in a
    ensures AllBlocks(c) <= AllBlocks(a)
  {
    forall b | b in AllBlocks(c) ensures b in AllBlocks(a) {
      var i := BlocksAreSomeones(c, b);
      assert c[i] in a;
      var j :| 0 <= j < |a| && a[j] == c[i];
      OneOfAllBlocks(a, j);
    }
  }

  /** The list a write leaves holds the old blocks but those freed, and its runs. */
  lemma WriteBlocks(arenas: set<nat>, es: seq<Extent>, w: Write, after: seq<Extent>)
    requires Pairwise(es) && AllOwned(arenas, es, w.off, w.End()) && Leaves(arenas, es, w, after)
    requires Aligned(w.off) && w.len > 0 && Fits(w.runs, w.len)
    ensures AllBlocks(after) == AllBlocks(es) - AllFreed(arenas, es, w.off, w.End()) + RunBlocks(w.runs)
    ensures AllFreed(arenas, es, w.off, w.End()) <= AllBlocks(es)
  {
    var pieces := Pieces(arenas, es, w.off, w.End(), w.chunk + |w.runs|);
    var kept, freed, whole := AllBlocks(pieces), AllFreed(arenas, es, w.off, w.End()), AllBlocks(es);
    PiecesPartition(arenas, es, w.off, w.End(), w.chunk + |w.runs|);
    assert Divides(kept, freed, whole);
    BalanceWrite(after, w, pieces, kept, freed, whole);
  }

  lemma BalanceWrite(after: seq<Extent>, w: Write, pieces: seq<Extent>, kept: set<nat>, freed: set<nat>, whole: set<nat>)
    requires Holds(after, w.New(), pieces) && kept == AllBlocks(pieces) && Divides(kept, freed, whole)
    requires Fits(w.runs, w.len)
    ensures AllBlocks(after) == whole - freed + RunBlocks(w.runs) && freed <= whole
  {
    JoinedBlocks(after, w.New(), pieces);
    NewBlocks(w.runs, w.off, w.len, w.chunk, w.sn, w.gen, w.node);
  }

  lemma JoinedBlocks(c: seq<Extent>, a: seq<Extent>, b: seq<Extent>)
    requires Holds(c, a, b)
    ensures AllBlocks(c) == AllBlocks(a) + AllBlocks(b)
  {
    BlocksOfJoin(a, b);
    SameBlocksAsJoin(c, a, b);
  }

  lemma SameBlocksAsJoin(c: seq<Extent>, a: seq<Extent>, b: seq<Extent>)
    requires Holds(c, a, b)
    ensures AllBlocks(c) == AllBlocks(a + b)
  {
    SameRecordsSameBlocks(c, a + b);
    SameRecordsSameBlocks(a + b, c);
  }
}
