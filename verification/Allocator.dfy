/** Block allocation in this node's arenas: bitmaps with a rotating hint
    (pkg/arena/allocator.go). */
module Allocation {
  import opened Common
  import opened Extents
  import opened WritePath
  import opened Bits

  const BLOCKS_PER_ARENA: nat := 262144
  const WORDS: nat := 4096

  // --- Bitmaps as values -------------------------------------------------------

  type Words = seq<Word>

  /** Block `b` of an arena is free: its bit is clear. */
  predicate Clear(words: Words, b: nat)
    requires |words| == WORDS && b < BLOCKS_PER_ARENA
  {
    !words[b / 64][b % 64]
  }

  ghost predicate ClearAt(words: Words, lo: nat, x: nat)
    requires |words| == WORDS
  {
    lo <= x < lo + BLOCKS_PER_ARENA && Clear(words, x - lo)
  }

  /** The free blocks of an arena whose first block is `lo`. */
  ghost function FreeIn(words: Words, lo: nat): set<nat>
    requires |words| == WORDS
  {
    set x | lo <= x < lo + BLOCKS_PER_ARENA && ClearAt(words, lo, x)
  }

  function Marked(words: Words, b: nat): Words
    requires |words| == WORDS && b < BLOCKS_PER_ARENA
  {
    words[b / 64 := words[b / 64][b % 64 := true]]
  }

  function Unmarked(words: Words, b: nat): Words
    requires |words| == WORDS && b < BLOCKS_PER_ARENA
  {
    words[b / 64 := words[b / 64][b % 64 := false]]
  }

  lemma MarkedClear(words: Words, b: nat, x: nat)
    requires |words| == WORDS && b < BLOCKS_PER_ARENA && x < BLOCKS_PER_ARENA
    ensures Clear(Marked(words, b), x) <==> Clear(words, x) && x != b
  {
  }

  lemma UnmarkedClear(words: Words, b: nat, x: nat)
    requires |words| == WORDS && b < BLOCKS_PER_ARENA && x < BLOCKS_PER_ARENA
    ensures Clear(Unmarked(words, b), x) <==> Clear(words, x) || x == b
  {
  }

  lemma MarkedFree(words: Words, lo: nat, b: nat)
    requires |words| == WORDS && b < BLOCKS_PER_ARENA
    ensures FreeIn(Marked(words, b), lo) == FreeIn(words, lo) - {lo + b}
  {
    forall x | lo <= x < lo + BLOCKS_PER_ARENA
      ensures ClearAt(Marked(words, b), lo, x) <==> ClearAt(words, lo, x) && x != lo + b
    {
      MarkedClear(words, b, x - lo);
    }
  }

  lemma UnmarkedFree(words: Words, lo: nat, b: nat)
    requires |words| == WORDS && b < BLOCKS_PER_ARENA
    ensures FreeIn(Unmarked(words, b), lo) == FreeIn(words, lo) + {lo + b}
  {
    forall x | lo <= x < lo + BLOCKS_PER_ARENA
      ensures ClearAt(Unmarked(words, b), lo, x) <==> ClearAt(words, lo, x) || x == lo + b
    {
      UnmarkedClear(words, b, x - lo);
    }
  }

  /** Blocks leaving a set one by one, from `lo` on. */
  lemma {:induction false} OneByOneOut(sets: seq<set<nat>>, lo: nat, n: nat)
    requires n < |sets| && forall i :: 0 <= i < n ==> sets[i + 1] == sets[i] - {lo + i}
    ensures sets[n] == sets[0] - Span(lo, n)
  {
    if n > 0 {
      OneByOneOut(sets, lo, n - 1);
      WithoutOneMore(sets[0], lo, n - 1);
    }
  }

  /** Blocks joining a set one by one, counting those already there. */
  ghost predicate Joining(sets: seq<set<nat>>, counts: seq<nat>, lo: nat, n: nat) {
    && |sets| == n + 1 && |counts| == n + 1 && counts[0] == 0
    && forall i :: 0 <= i < n ==> Joins(sets, counts, lo, i)
  }

  ghost predicate Joins(sets: seq<set<nat>>, counts: seq<nat>, lo: nat, i: nat)
    requires i + 1 < |sets| && i + 1 < |counts|
  {
    sets[i + 1] == sets[i] + {lo + i} && counts[i + 1] == counts[i] + if lo + i in sets[i] then 1 else 0
  }

  lemma JoinsMore(sets: seq<set<nat>>, counts: seq<nat>, lo: nat, n: nat, s: set<nat>, c: nat)
    requires Joining(sets, counts, lo, n) && s == sets[n] + {lo + n} && c == counts[n] + if lo + n in sets[n] then 1 else 0
    ensures Joining(sets + [s], counts + [c], lo, n + 1)
  {
    var sets', counts' := sets + [s], counts + [c];
    forall i | 0 <= i < n + 1 ensures Joins(sets', counts', lo, i) {
      if i < n {
        assert Joins(sets, counts, lo, i);
      }
    }
  }

  lemma {:induction false} OneByOneIn(sets: seq<set<nat>>, counts: seq<nat>, lo: nat, n: nat)
    requires Joining(sets, counts, lo, n)
    ensures sets[n] == sets[0] + Span(lo, n) && counts[n] == |sets[0] * Span(lo, n)|
  {
    if n == 0 {
      assert sets[0] * Span(lo, 0) == {};
    } else {
      var front, fronts := sets[..n], counts[..n];
      forall i | 0 <= i < n - 1 ensures Joins(front, fronts, lo, i) {
        assert Joins(sets, counts, lo, i);
      }
      OneByOneIn(front, fronts, lo, n - 1);
      assert Joins(sets, counts, lo, n - 1);
      LastJoins(sets[0], sets[n - 1], sets[n], counts[n - 1], counts[n], lo, n - 1);
    }
  }

  lemma LastJoins(first: set<nat>, prev: set<nat>, last: set<nat>, was: nat, now: nat, lo: nat, n: nat)
    requires prev == first + Span(lo, n) && was == |first * Span(lo, n)|
    requires last == prev + {lo + n} && now == was + if lo + n in prev then 1 else 0
    ensures last == first + Span(lo, n + 1) && now == |first * Span(lo, n + 1)|
  {
    WithOneMore(first, lo, n);
  }

  lemma GivenOne(words: Words, lo: nat, b: nat)
    requires |words| == WORDS && b < BLOCKS_PER_ARENA
    ensures Clear(words, b) <==> lo + b in FreeIn(words, lo)
    ensures FreeIn(if Clear(words, b) then words else Unmarked(words, b), lo) == FreeIn(words, lo) + {lo + b}
  {
    assert Clear(words, b) <==> ClearAt(words, lo, lo + b);
    if Clear(words, b) {
      assert FreeIn(words, lo) == FreeIn(words, lo) + {lo + b};
    } else {
      UnmarkedFree(words, lo, b);
    }
  }

  lemma WithoutOneMore(s: set<nat>, lo: nat, n: nat)
    ensures (s - Span(lo, n)) - {lo + n} == s - Span(lo, n + 1)
  {
  }

  lemma WithOneMore(s: set<nat>, lo: nat, n: nat)
    ensures s + Span(lo, n) + {lo + n} == s + Span(lo, n + 1)
    ensures lo + n in s + Span(lo, n) <==> lo + n in s
    ensures |s * Span(lo, n + 1)| == |s * Span(lo, n)| + if lo + n in s then 1 else 0
  {
    if lo + n in s {
      assert s * Span(lo, n + 1) == s * Span(lo, n) + {lo + n};
    } else {
      assert s * Span(lo, n + 1) == s * Span(lo, n);
    }
  }

  lemma FullWordIsTaken(words: Words, w: nat)
    requires |words| == WORDS && w < WORDS && words[w] == FULL
    ensures forall b :: w * 64 <= b < (w + 1) * 64 ==> !Clear(words, b)
  {
  }

  // --- One arena ----------------------------------------------------------------

  /** A contiguous device range and the bitmap of its blocks, in which a set bit
      is an allocated block. */
  class Arena {
    const id: nat
    const bitmap: array<Word>
    var hint: nat

    ghost predicate Valid() reads this {
      bitmap.Length == WORDS && hint <= BLOCKS_PER_ARENA
    }

    /** The device number of the arena's first block. */
    function Lo(): nat {
      id * BLOCKS_PER_ARENA
    }

    /** The free blocks, by device number. */
    ghost function Free(): set<nat>
      requires bitmap.Length == WORDS
      reads bitmap
    {
      FreeIn(bitmap[..], Lo())
    }

    constructor (id: nat)
      ensures Valid() && this.id == id && fresh(bitmap) && Free() == Span(Lo(), BLOCKS_PER_ARENA)
    {
      this.id, hint := id, 0;
      bitmap := new Word[WORDS](_ => seq(64, _ => false));
      new;
      forall x | Lo() <= x < Lo() + BLOCKS_PER_ARENA ensures ClearAt(bitmap[..], Lo(), x) {
      }
    }

    predicate IsFree(b: nat)
      requires bitmap.Length == WORDS && b < BLOCKS_PER_ARENA
      reads bitmap
      ensures IsFree(b) == Clear(bitmap[..], b)
    {
      !bitmap[b / 64][b % 64]
    }

    method MarkAllocated(b: nat)
      requires Valid() && b < BLOCKS_PER_ARENA
      modifies bitmap
      ensures Free() == old(Free()) - {Lo() + b}
    {
      MarkedFree(bitmap[..], Lo(), b);
      bitmap[b / 64] := bitmap[b / 64][b % 64 := true];
      assert bitmap[..] == Marked(old(bitmap[..]), b);
    }

    method MarkFree(b: nat)
      requires Valid() && b < BLOCKS_PER_ARENA
      modifies bitmap
      ensures Free() == old(Free()) + {Lo() + b}
    {
      UnmarkedFree(bitmap[..], Lo(), b);
      bitmap[b / 64] := bitmap[b / 64][b % 64 := false];
      assert bitmap[..] == Unmarked(old(bitmap[..]), b);
    }

    /** The first free run in `[from, until)`, at most `max` blocks of it. A word
        with every block allocated is skipped whole. */
    method FindRunIn(from: nat, until: nat, max: nat) returns (start: nat, length: nat)
      requires bitmap.Length == WORDS && until <= BLOCKS_PER_ARENA && max > 0
      ensures length == 0 ==> forall b :: from <= b < until ==> !IsFree(b)
      ensures length > 0 ==> from <= start && start + length <= until && length <= max
      ensures length > 0 ==> forall b :: start <= b < start + length ==> IsFree(b)
      ensures length > 0 ==> forall b :: from <= b < start ==> !IsFree(b)
      ensures 0 < length < max && start + length < until ==> !IsFree(start + length)
    {
      var i := from;
      while i < until
        invariant from <= i && forall b :: from <= b < i && b < until ==> !IsFree(b)
        decreases until - i
      {
        if bitmap[i / 64] == FULL {
          FullWordIsTaken(bitmap[..], i / 64);
          i := (i / 64 + 1) * 64;
        } else if !IsFree(i) {
          i := i + 1;
        } else {
          start, length := i, 0;
          while length < max && i < until && IsFree(i)
            invariant i == start + length && i <= until && length <= max
            invariant length == 0 ==> i < until && IsFree(i)
            invariant forall b :: start <= b < i ==> IsFree(b)
          {
            length := length + 1;
            i := i + 1;
          }
          return;
        }
      }
      return 0, 0;
    }

    /** A free run, searched from the hint to the end and then from the start
        to the hint; none only when the arena is full. */
    method FindRun(max: nat) returns (start: nat, length: nat)
      requires Valid() && max > 0
      modifies `hint
      ensures Valid()
      ensures length == 0 ==> Free() == {}
      ensures length > 0 ==> length <= max && start + length <= BLOCKS_PER_ARENA && Span(Lo() + start, length) <= Free()
    {
      start, length := FindRunIn(hint, BLOCKS_PER_ARENA, max);
      if length == 0 {
        start, length := FindRunIn(0, hint, max);
      }
      if length > 0 {
        hint := start + length;
        forall x | x in Span(Lo() + start, length) ensures ClearAt(bitmap[..], Lo(), x) {
          assert IsFree(x - Lo());
        }
      } else {
        forall x | Lo() <= x < Lo() + BLOCKS_PER_ARENA ensures !ClearAt(bitmap[..], Lo(), x) {
          assert !IsFree(x - Lo());
        }
        start := 0;
      }
    }

    /** Marks a run of blocks allocated. */
    method Take(start: nat, length: nat)
      requires Valid() && start + length <= BLOCKS_PER_ARENA
      modifies bitmap
      ensures Free() == old(Free()) - Span(Lo() + start, length)
    {
      ghost var sets: seq<set<nat>> := [Free()];
      for i := 0 to length
        invariant |sets| == i + 1 && sets[0] == old(Free()) && sets[i] == Free()
        invariant forall j :: 0 <= j < i ==> sets[j + 1] == sets[j] - {Lo() + start + j}
      {
        MarkAllocated(start + i);
        sets := sets + [Free()];
      }
      OneByOneOut(sets, Lo() + start, length);
    }

    /** Frees one block, unless it already is free. */
    method GiveOne(b: nat) returns (already: bool)
      requires Valid() && b < BLOCKS_PER_ARENA
      modifies bitmap
      ensures Free() == old(Free()) + {Lo() + b} && (already <==> Lo() + b in old(Free()))
    {
      already := IsFree(b);
      GivenOne(bitmap[..], Lo(), b);
      if !already {
        MarkFree(b);
      }
    }

    /** Marks a range free, counting the blocks that already were. */
    method Give(start: nat, length: nat) returns (already: nat)
      requires Valid() && start + length <= BLOCKS_PER_ARENA
      modifies bitmap
      ensures Free() == old(Free()) + Span(Lo() + start, length)
      ensures already == |old(Free()) * Span(Lo() + start, length)|
    {
      already := 0;
      ghost var sets: seq<set<nat>>, counts: seq<nat> := [Free()], [0];
      for i := 0 to length
        invariant Joining(sets, counts, Lo() + start, i)
        invariant sets[0] == old(Free()) && sets[i] == Free() && counts[i] == already
      {
        var free := GiveOne(start + i);
        if free {
          already := already + 1;
        }
        JoinsMore(sets, counts, Lo() + start, i, Free(), already);
        sets, counts := sets + [Free()], counts + [already];
      }
      OneByOneIn(sets, counts, Lo() + start, length);
    }

    /** Marks every block of an extent that lies in this arena, and of no other,
        as a restart does with all extents there are. */
    method MarkLiveExtents(es: seq<Extent>)
      requires Valid()
      modifies bitmap
      ensures Free() == old(Free()) - Live(id, es)
      ensures forall b :: b in Free() <==> b in old(Free()) && !Named(id, es, b)
    {
      forall b ensures b in Live(id, es) <==> Named(id, es, b) {
        LiveIff(id, es, b);
      }
      for i := 0 to |es|
        invariant Free() == old(Free()) - Live(id, es[..i])
      {
        assert es[..i + 1][..i] == es[..i];
        if Within(id, es[i]) && es[i].length > 0 {
          var start, n := Portion(id, es[i].diskOff, es[i].length);
          Take(start, n);
        }
      }
      assert es[..|es|] == es;
    }

    /** Frees a range and has the next search reuse it before sweeping on. */
    method Return(start: nat, length: nat) returns (already: nat)
      requires Valid() && start + length <= BLOCKS_PER_ARENA
      modifies `hint, bitmap
      ensures Valid() && Free() == old(Free()) + Span(Lo() + start, length)
      ensures already == |old(Free()) * Span(Lo() + start, length)|
    {
      already := Give(start, length);
      if start < hint {
        hint := start;
      }
    }
  }

  // --- Runs -----------------------------------------------------------------------

  lemma {:induction false} SpanSize(lo: nat, n: nat)
    ensures |Span(lo, n)| == n
  {
    if n > 0 {
      SpanSize(lo, n - 1);
      assert Span(lo, n) == Span(lo, n - 1) + {lo + n - 1};
    }
  }

  function Sum(runs: seq<Run>): nat {
    if runs == [] then 0 else Sum(runs[..|runs| - 1]) + runs[|runs| - 1].length
  }

  /** A run of whole blocks. */
  predicate IsRun(r: Run) {
    Aligned(r.diskOff) && Aligned(r.length) && r.length > 0
  }

  lemma {:induction false} OneMoreRun(runs: seq<Run>, r: Run)
    ensures RunBlocks(runs + [r]) == RunBlocks(runs) + RangeBlocks(r.diskOff, r.length)
    ensures DisjointSpans(runs) && RunBlocks(runs) !! RangeBlocks(r.diskOff, r.length) ==> DisjointSpans(runs + [r])
  {
    if runs == [] {
      assert runs + [r] == [r];
    } else {
      assert (runs + [r])[1..] == runs[1..] + [r];
      OneMoreRun(runs[1..], r);
    }
  }

  lemma SumMore(runs: seq<Run>, r: Run)
    ensures Sum(runs + [r]) == Sum(runs) + r.length
  {
    assert (runs + [r])[..|runs|] == runs;
  }

  lemma {:induction false} SumFront(runs: seq<Run>)
    requires runs != []
    ensures Sum(runs) == runs[0].length + Sum(runs[1..])
  {
    if |runs| > 1 {
      SumFront(runs[..|runs| - 1]);
      assert runs[..|runs| - 1][1..] == runs[1..][..|runs| - 2];
    }
  }

  /** Whole-block runs of exactly the blocks a payload needs are runs it fits. */
  lemma {:induction false} RunsFit(runs: seq<Run>, size: nat)
    requires forall i :: 0 <= i < |runs| ==> IsRun(runs[i])
    requires Sum(runs) == BlocksFor(size) * BLOCK
    ensures Fits(runs, size)
  {
    if runs != [] {
      SumFront(runs);
      FitsFirst(runs[0], Sum(runs[1..]), size);
      RunsFit(runs[1..], if runs[0].length >= size then 0 else size - runs[0].length);
    }
  }

  /** One run of the blocks a payload needs; the others hold what is left of it. */
  lemma FitsFirst(r: Run, rest: nat, size: nat)
    requires IsRun(r) && r.length + rest == BlocksFor(size) * BLOCK
    ensures 0 < size && r.length < size + BLOCK
    ensures rest == BlocksFor(if r.length >= size then 0 else size - r.length) * BLOCK
  {
    assert r.length == r.length / BLOCK * BLOCK;
  }

  /** What a reservation has done so far: it took these runs, and only their
      blocks, from what was free. */
  ghost predicate Reserved(was: set<nat>, free: set<nat>, ids: set<nat>, runs: seq<Run>, got: nat) {
    && RunBlocks(runs) <= was && free == was - RunBlocks(runs)
    && DisjointSpans(runs) && |RunBlocks(runs)| == got && Sum(runs) == got * BLOCK
    && forall i :: 0 <= i < |runs| ==> IsRun(runs[i]) && InArena(ids, runs[i].diskOff, runs[i].length)
  }

  lemma ReserveMore(was: set<nat>, free: set<nat>, ids: set<nat>, runs: seq<Run>, got: nat, r: Run, n: nat)
    requires Reserved(was, free, ids, runs, got) && IsRun(r) && r.length == n * BLOCK
    requires RangeBlocks(r.diskOff, r.length) <= free && InArena(ids, r.diskOff, r.length)
    ensures Reserved(was, free - RangeBlocks(r.diskOff, r.length), ids, runs + [r], got + n)
  {
    var taken, more := RunBlocks(runs), RangeBlocks(r.diskOff, r.length);
    OneMoreRun(runs, r);
    SumMore(runs, r);
    SpanSize(r.diskOff / BLOCK, BlocksFor(r.length));
    MoreTaken(was, taken, more);
  }

  lemma MoreTaken(was: set<nat>, taken: set<nat>, more: set<nat>)
    requires taken <= was && more <= was - taken
    ensures taken + more <= was && was - (taken + more) == (was - taken) - more && |taken + more| == |taken| + |more|
  {
    assert taken * more == {};
  }

  // --- All the arenas of a node -----------------------------------------------------

  /** A run on device blocks from `at`. */
  function RunAt(at: nat, n: nat): Run {
    Run(at * BLOCK, n * BLOCK)
  }

  lemma RunAtBlocks(at: nat, n: nat)
    ensures RangeBlocks(at * BLOCK, n * BLOCK) == Span(at, n)
  {
  }

  lemma RunAtHome(id: nat, start: nat, n: nat)
    requires n > 0 && start + n <= BLOCKS_PER_ARENA
    ensures var off := id * ARENA + start * BLOCK;
            off / ARENA == id && (off + n * BLOCK - 1) / ARENA == id
  {
  }

  ghost function BitmapsOf(arenas: seq<Arena>): set<object> {
    set i | 0 <= i < |arenas| :: arenas[i].bitmap
  }

  ghost function FreesOf(arenas: seq<Arena>): (r: seq<set<nat>>)
    requires forall i :: 0 <= i < |arenas| ==> arenas[i].bitmap.Length == WORDS
    reads BitmapsOf(arenas)
    ensures |r| == |arenas| && forall i :: 0 <= i < |arenas| ==> r[i] == arenas[i].Free()
  {
    seq(|arenas|, i requires 0 <= i < |arenas| && arenas[i].bitmap.Length == WORDS reads BitmapsOf(arenas) => arenas[i].Free())
  }

  class Allocator {
    var arenas: seq<Arena>
    var doubleFrees: nat

    ghost function Ids(): set<nat>
      reads `arenas
    {
      set i | 0 <= i < |arenas| :: arenas[i].id
    }

    ghost function Bitmaps(): set<object>
      reads `arenas
    {
      BitmapsOf(arenas)
    }

    /** No two arenas are one object or one device range. */
    ghost predicate Valid()
      reads `arenas, arenas
    {
      && (forall i :: 0 <= i < |arenas| ==> arenas[i].Valid())
      && (forall i, j :: 0 <= i < j < |arenas| ==>
            arenas[i] != arenas[j] && arenas[i].bitmap != arenas[j].bitmap && arenas[i].id != arenas[j].id)
    }

    ghost predicate Sized()
      reads `arenas
    {
      forall i :: 0 <= i < |arenas| ==> arenas[i].bitmap.Length == WORDS
    }

    /** The free blocks, arena by arena. */
    ghost function Frees(): seq<set<nat>>
      requires Sized()
      reads `arenas, Bitmaps()
    {
      FreesOf(arenas)
    }

    /** The free blocks of all arenas. */
    ghost function Free(): set<nat>
      requires Sized()
      reads `arenas, Bitmaps()
    {
      All(FreesOf(arenas))
    }

    constructor ()
      ensures Valid() && arenas == [] && doubleFrees == 0
    {
      arenas, doubleFrees := [], 0;
    }

    /** The device range starts in an arena this node holds. */
    method Owns(diskOff: nat) returns (owns: bool)
      ensures owns <==> WritePath.Owns(Ids(), diskOff)
    {
      var i := Find(diskOff);
      owns := i < |arenas|;
    }

    /** Takes one run, at most `max` blocks, from arena `i`. */
    method TakeRun(i: nat, max: nat) returns (run: Run, length: nat)
      requires Valid() && i < |arenas| && max > 0
      modifies arenas, Bitmaps()
      ensures Valid() && length <= max
      ensures length == 0 ==> Frees()[i] == {} && Free() == old(Free())
      ensures length > 0 ==> IsRun(run) && run.length == length * BLOCK && InArena(Ids(), run.diskOff, run.length)
      ensures length > 0 ==> RangeBlocks(run.diskOff, run.length) <= old(Free())
                             && Free() == old(Free()) - RangeBlocks(run.diskOff, run.length)
      ensures OthersSame(old(Frees()), Frees(), i)
    {
      var ar := arenas[i];
      var start;
      start, length := ar.FindRun(max);
      if length == 0 {
        return Run(0, 0), 0;
      }
      ghost var at, was := ar.Lo() + start, Frees();
      ar.Take(start, length);
      run := Run(ar.id * ARENA + start * BLOCK, length * BLOCK);
      assert run == RunAt(at, length);
      RunAtBlocks(at, length);
      RunAtHome(ar.id, start, length);
      SpanInArena(was, i, at, length);
      OutOfOne(was, Frees(), i, Span(at, length));
    }

    /** Frees blocks of one arena, counting those that already were. */
    method GiveRange(i: nat, start: nat, n: nat, ghost part: set<nat>) returns (already: nat)
      requires Valid() && i < |arenas| && start + n <= BLOCKS_PER_ARENA && part == Span(arenas[i].Lo() + start, n)
      modifies arenas, Bitmaps()
      ensures Valid() && Free() == old(Free()) + part && already == |old(Free()) * part|
    {
      ghost var was := Frees();
      SpanInArena(was, i, arenas[i].Lo() + start, n);
      already := ReturnTo(i, start, n, part);
      GivenToOne(was, Frees(), i, part, already);
    }

    method ReturnTo(i: nat, start: nat, n: nat, ghost part: set<nat>) returns (already: nat)
      requires Valid() && i < |arenas| && start + n <= BLOCKS_PER_ARENA && part == Span(arenas[i].Lo() + start, n)
      modifies arenas, Bitmaps()
      ensures Valid() && OthersSame(old(Frees()), Frees(), i)
      ensures Frees()[i] == old(Frees())[i] + part && already == |old(Frees())[i] * part|
    {
      already := arenas[i].Return(start, n);
    }

    /** The arena a device offset lies in, or none. */
    method Find(diskOff: nat) returns (i: nat)
      ensures i <= |arenas| && (i < |arenas| <==> WritePath.Owns(Ids(), diskOff))
      ensures i < |arenas| ==> InRange(arenas[i].id, diskOff)
    {
      i := 0;
      while i < |arenas| && !InRange(arenas[i].id, diskOff)
        invariant 0 <= i <= |arenas| && forall j :: 0 <= j < i ==> !InRange(arenas[j].id, diskOff)
      {
        i := i + 1;
      }
      if i == |arenas| {
        NotOwned(diskOff);
      } else {
        IsOwned(i, diskOff);
      }
    }

    lemma NotOwned(diskOff: nat)
      requires forall j :: 0 <= j < |arenas| ==> !InRange(arenas[j].id, diskOff)
      ensures !WritePath.Owns(Ids(), diskOff)
    {
      if j :| 0 <= j < |arenas| && arenas[j].id == diskOff / ARENA {
        RangeIff(arenas[j].id, diskOff);
      }
    }

    lemma IsOwned(i: nat, diskOff: nat)
      requires i < |arenas| && InRange(arenas[i].id, diskOff)
      ensures WritePath.Owns(Ids(), diskOff)
    {
      RangeIff(arenas[i].id, diskOff);
    }

    /** Marks a range free, in the arena it starts in. A range outside every
        arena of this node is ignored; a block that is free already is counted. */
    method FreeLocked(diskOff: nat, size: nat)
      requires Valid()
      modifies `doubleFrees, arenas, Bitmaps()
      ensures Valid()
      ensures !WritePath.Owns(Ids(), diskOff) ==> Free() == old(Free()) && doubleFrees == old(doubleFrees)
      ensures WritePath.Owns(Ids(), diskOff) ==> GivenBack(old(Free()), Free(), old(doubleFrees), doubleFrees, Returned(diskOff, size))
    {
      var i := Find(diskOff);
      if i < |arenas| {
        var start, n := Portion(arenas[i].id, diskOff, size);
        GiveBack(i, start, n, Returned(diskOff, size));
      }
    }

    /** Frees blocks of one arena and adds up the double frees. */
    method GiveBack(i: nat, start: nat, n: nat, ghost part: set<nat>)
      requires Valid() && i < |arenas| && start + n <= BLOCKS_PER_ARENA && part == Span(arenas[i].Lo() + start, n)
      modifies `doubleFrees, arenas, Bitmaps()
      ensures Valid() && GivenBack(old(Free()), Free(), old(doubleFrees), doubleFrees, part)
    {
      var already := GiveRange(i, start, n, part);
      doubleFrees := doubleFrees + already;
    }

    /** Gives back one run of a failed reservation. */
    method UndoOne(r: Run, ghost was: set<nat>, ghost rest: set<nat>)
      requires Valid() && IsRun(r) && InArena(Ids(), r.diskOff, r.length)
      requires RangeBlocks(r.diskOff, r.length) <= was && RangeBlocks(r.diskOff, r.length) !! rest
      requires Free() == was - (RangeBlocks(r.diskOff, r.length) + rest)
      modifies `doubleFrees, arenas, Bitmaps()
      ensures Valid() && Free() == was - rest && doubleFrees == old(doubleFrees)
    {
      ghost var out := RangeBlocks(r.diskOff, r.length);
      ReturnedRun(Ids(), r);
      BackAgain(was, out, rest);
      FreeLocked(r.diskOff, r.length);
    }

    /** Gives back what a failed reservation took. */
    method Undo(runs: seq<Run>, ghost was: set<nat>, ghost got: nat)
      requires Valid() && Reserved(was, Free(), Ids(), runs, got)
      modifies `doubleFrees, arenas, Bitmaps()
      ensures Valid() && Free() == was && doubleFrees == old(doubleFrees)
    {
      for i := 0 to |runs|
        invariant Valid() && doubleFrees == old(doubleFrees)
        invariant Left(was, Free(), runs, i)
      {
        LeftOne(was, Free(), runs, i);
        UndoOne(runs[i], was, RunBlocks(runs[i + 1..]));
      }
      assert runs[|runs|..] == [];
    }

    /** Runs taken from one arena after another, until there are enough or no
        free block is left. */
    method Gather(want: nat, ghost was: set<nat>) returns (got: nat, runs: seq<Run>)
      requires Valid() && want > 0 && was == Free()
      modifies arenas, Bitmaps()
      ensures Valid() && got <= want && Reserved(was, Free(), Ids(), runs, got)
      ensures got < want ==> Free() == {}
    {
      got, runs := 0, [];
      for i := 0 to |arenas|
        invariant Valid() && got < want && Reserved(was, Free(), Ids(), runs, got)
        invariant EmptyBefore(Frees(), i)
      {
        ghost var frees := Frees();
        got, runs := Drain(i, want, got, runs, was);
        if got == want {
          return;
        }
        EmptyOneMore(frees, Frees(), i);
      }
      AllEmpty(Frees());
    }

    /** Reserves the blocks for `size` bytes from as many runs as it takes. It
        succeeds exactly when the arenas have enough free blocks in all; the runs
        are disjoint, were free, fit the payload, lie in this node's arenas, and
        are all that changed. A failure leaves every block as it was. */
    method Allocate(size: nat) returns (ok: bool, runs: seq<Run>)
      requires Valid()
      modifies `doubleFrees, arenas, Bitmaps()
      ensures Valid() && doubleFrees == old(doubleFrees)
      ensures ok <==> BlocksFor(size) <= |old(Free())|
      ensures ok ==> Reserved(old(Free()), Free(), Ids(), runs, BlocksFor(size)) && Fits(runs, size)
      ensures !ok ==> Free() == old(Free()) && runs == []
    {
      var want := BlocksFor(size);
      if want == 0 {
        return true, [];
      }
      ghost var was := Free();
      var got;
      got, runs := Gather(want, was);
      EnoughOrAll(was, Free(), RunBlocks(runs));
      ok := got == want;
      if ok {
        RunsFit(runs, size);
      } else {
        Undo(runs, was, got);
        runs := [];
      }
    }

    /** One more run from one arena, if it has a free block. */
    method DrainOne(i: nat, want: nat, got0: nat, runs0: seq<Run>, ghost was: set<nat>) returns (got: nat, runs: seq<Run>)
      requires Valid() && i < |arenas| && got0 < want && Reserved(was, Free(), Ids(), runs0, got0)
      modifies arenas, Bitmaps()
      ensures Valid() && got0 <= got <= want && Reserved(was, Free(), Ids(), runs, got)
      ensures got == got0 ==> Frees()[i] == {}
      ensures OthersSame(old(Frees()), Frees(), i)
    {
      ghost var free := Free();
      var run, length := TakeRun(i, want - got0);
      if length == 0 {
        return got0, runs0;
      }
      ReserveMore(was, free, Ids(), runs0, got0, run, length);
      return got0 + length, runs0 + [run];
    }

    /** Takes runs from one arena until the request is met or the arena is full. */
    method Drain(i: nat, want: nat, got0: nat, runs0: seq<Run>, ghost was: set<nat>) returns (got: nat, runs: seq<Run>)
      requires Valid() && i < |arenas| && got0 < want && Reserved(was, Free(), Ids(), runs0, got0)
      modifies arenas, Bitmaps()
      ensures Valid() && got <= want && Reserved(was, Free(), Ids(), runs, got)
      ensures got < want ==> Frees()[i] == {}
      ensures OthersSame(old(Frees()), Frees(), i)
    {
      got, runs := got0, runs0;
      while got < want
        invariant Valid() && got <= want && Reserved(was, Free(), Ids(), runs, got)
        invariant OthersSame(old(Frees()), Frees(), i)
        decreases want - got
      {
        var before := got;
        ghost var frees := Frees();
        got, runs := DrainOne(i, want, got, runs, was);
        OthersStaySame(old(Frees()), frees, Frees(), i);
        if got == before {
          break;
        }
      }
    }

    lemma SpanInArena(sets: seq<set<nat>>, i: nat, at: nat, n: nat)
      requires Valid() && |sets| == |arenas| && i < |arenas| && arenas[i].Lo() <= at && at + n <= arenas[i].Lo() + BLOCKS_PER_ARENA
      requires forall j :: 0 <= j < |sets| ==> sets[j] <= Span(arenas[j].Lo(), BLOCKS_PER_ARENA)
      ensures forall j :: 0 <= j < |sets| && j != i ==> sets[j] !! Span(at, n)
    {
      forall j | 0 <= j < |sets| && j != i ensures sets[j] !! Span(at, n) {
        ArenasApart(arenas[i].id, arenas[j].id);
      }
    }
  }

  /** The blocks a free returns: its range, cut at the end of the arena. */
  function Returned(diskOff: nat, size: nat): set<nat> {
    Span(diskOff / BLOCK, Min(BlocksFor(size), BLOCKS_PER_ARENA - diskOff % ARENA / BLOCK))
  }

  /** The state after `part` was freed, double frees counted. */
  ghost predicate GivenBack(was: set<nat>, now: set<nat>, before: nat, after: nat, part: set<nat>) {
    now == was + part && after == before + |was * part|
  }

  predicate InRange(id: nat, diskOff: nat) {
    id * ARENA <= diskOff < (id + 1) * ARENA
  }

  lemma RangeIff(id: nat, diskOff: nat)
    ensures InRange(id, diskOff) <==> diskOff / ARENA == id
  {
  }

  /** Where a range starts in its arena, and how many blocks it has there. */
  method Portion(id: nat, diskOff: nat, size: nat) returns (start: nat, n: nat)
    requires InRange(id, diskOff)
    ensures start + n <= BLOCKS_PER_ARENA && Returned(diskOff, size) == Span(id * BLOCKS_PER_ARENA + start, n)
  {
    start := (diskOff - id * ARENA) / BLOCK;
    n := Min(BlocksFor(size), BLOCKS_PER_ARENA - start);
    StartOf(id, diskOff, size);
  }

  lemma StartOf(id: nat, diskOff: nat, size: nat)
    requires InRange(id, diskOff)
    ensures var start := (diskOff - id * ARENA) / BLOCK;
            && start < BLOCKS_PER_ARENA
            && Returned(diskOff, size)
               == Span(id * BLOCKS_PER_ARENA + start, Min(BlocksFor(size), BLOCKS_PER_ARENA - start))
  {
    assert diskOff % ARENA == diskOff - id * ARENA;
    assert diskOff / BLOCK == id * BLOCKS_PER_ARENA + (diskOff - id * ARENA) / BLOCK;
  }

  /** The extent lies entirely in the arena's device range. */
  predicate Within(id: nat, e: Extent) {
    id * ARENA <= e.diskOff && e.diskOff + e.length <= (id + 1) * ARENA
  }

  /** The blocks of an arena that extents name. */
  function Live(id: nat, es: seq<Extent>): set<nat> {
    if es == [] then {}
    else
      var last := es[|es| - 1];
      Live(id, es[..|es| - 1]) + (if Within(id, last) && last.length > 0 then Returned(last.diskOff, last.length) else {})
  }

  /** Block `b` is one of those from the extent's first byte on that its length
      takes. */
  predicate TakesBlock(e: Extent, b: nat) {
    e.diskOff / BLOCK <= b && (b - e.diskOff / BLOCK) * BLOCK < e.length
  }

  /** An extent that lies inside the arena takes the block. */
  ghost predicate Named(id: nat, es: seq<Extent>, b: nat) {
    exists e :: e in es && id * ARENA <= e.diskOff && e.diskOff + e.length <= (id + 1) * ARENA && TakesBlock(e, b)
  }

  /** What a free returns: as many blocks as the size takes, from the one the range
      starts in, as far as that arena goes. */
  lemma ReturnedIff(off: nat, size: nat, b: nat)
    ensures b in Returned(off, size) <==>
            off / BLOCK <= b && (b - off / BLOCK) * BLOCK < size && b < (off / ARENA + 1) * BLOCKS_PER_ARENA
  {
    var id, start := off / ARENA, off % ARENA / BLOCK;
    assert off / BLOCK == id * BLOCKS_PER_ARENA + start by { StartOf(id, off, size); RangeIff(id, off); InArenaStart(off); }
    BlocksTaken(size, b - off / BLOCK);
  }

  lemma InArenaStart(off: nat)
    ensures off / BLOCK == off / ARENA * BLOCKS_PER_ARENA + off % ARENA / BLOCK
  {
  }

  lemma BlocksTaken(size: nat, n: int)
    ensures n >= 0 ==> (n < BlocksFor(size) <==> n * BLOCK < size)
  {
  }

  /** The blocks marked are exactly those of the extents inside the arena. */
  lemma {:induction false} LiveIff(id: nat, es: seq<Extent>, b: nat)
    ensures b in Live(id, es) <==> Named(id, es, b)
  {
    if es != [] {
      var last := es[|es| - 1];
      LiveIff(id, es[..|es| - 1], b);
      assert es == es[..|es| - 1] + [last];
      if Within(id, last) && last.length > 0 {
        WithinReturned(id, last, b);
      }
    }
  }

  lemma WithinReturned(id: nat, e: Extent, b: nat)
    requires Within(id, e) && e.length > 0
    ensures b in Returned(e.diskOff, e.length) <==> TakesBlock(e, b)
  {
    RangeIff(id, e.diskOff);
    ReturnedIff(e.diskOff, e.length, b);
  }

  /** An extent inside one arena is live there, whole. */
  lemma {:induction false} LiveWhole(ids: set<nat>, es: seq<Extent>, e: Extent)
    requires e in es && WellFormed(e) && InArena(ids, e.diskOff, e.length)
    ensures e.diskOff / ARENA in ids && Blocks(e) <= Live(e.diskOff / ARENA, es)
  {
    var last := es[|es| - 1];
    if e == last {
      WholeInArena(e);
    } else {
      assert es == es[..|es| - 1] + [last];
      LiveWhole(ids, es[..|es| - 1], e);
    }
  }

  lemma WholeInArena(e: Extent)
    requires WellFormed(e) && (e.diskOff + e.length - 1) / ARENA == e.diskOff / ARENA
    ensures Within(e.diskOff / ARENA, e) && Returned(e.diskOff, e.length) == Blocks(e)
  {
    var id := e.diskOff / ARENA;
    RangeIff(id, e.diskOff);
    RangeIff(id, e.diskOff + e.length - 1);
    RoomLeft(id, e.diskOff, e.length);
  }

  /** A range from a block boundary that ends in its arena needs no more blocks
      than are left there. */
  lemma RoomLeft(id: nat, off: nat, len: nat)
    requires Aligned(off) && id * ARENA <= off && off + len <= (id + 1) * ARENA && off < (id + 1) * ARENA
    ensures BlocksFor(len) <= BLOCKS_PER_ARENA - off % ARENA / BLOCK
  {
    var rest := off - id * ARENA;
    assert off % ARENA == rest by { RangeIff(id, off); }
    assert rest == rest / BLOCK * BLOCK;
  }

  /** A run inside one arena is returned whole. */
  lemma ReturnedRun(ids: set<nat>, r: Run)
    requires IsRun(r) && InArena(ids, r.diskOff, r.length)
    ensures Returned(r.diskOff, r.length) == RangeBlocks(r.diskOff, r.length)
  {
  }

  lemma BackAgain(was: set<nat>, out: set<nat>, rest: set<nat>)
    requires out <= was && out !! rest
    ensures was - (out + rest) + out == was - rest
  {
  }

  lemma EnoughOrAll(was: set<nat>, free: set<nat>, taken: set<nat>)
    requires taken <= was && free == was - taken
    ensures |taken| <= |was| && (free == {} ==> |taken| == |was|)
  {
    assert was == taken + free;
  }

  /** The runs from `i` on are still to be given back. */
  ghost predicate Left(was: set<nat>, free: set<nat>, runs: seq<Run>, i: nat) {
    i <= |runs| && RunBlocks(runs[i..]) <= was && free == was - RunBlocks(runs[i..]) && DisjointSpans(runs[i..])
  }

  lemma LeftOne(was: set<nat>, free: set<nat>, runs: seq<Run>, i: nat)
    requires i < |runs| && Left(was, free, runs, i)
    ensures var out, rest := RangeBlocks(runs[i].diskOff, runs[i].length), RunBlocks(runs[i + 1..]);
            out <= was && out !! rest && free == was - (out + rest) && rest <= was && DisjointSpans(runs[i + 1..])
  {
    assert runs[i..][1..] == runs[i + 1..];
  }

  ghost predicate EmptyBefore(sets: seq<set<nat>>, n: nat) {
    n <= |sets| && forall i :: 0 <= i < n ==> sets[i] == {}
  }

  /** Only the set at `i` may differ. */
  ghost predicate OthersSame(sets: seq<set<nat>>, sets': seq<set<nat>>, i: nat) {
    |sets'| == |sets| && forall j :: 0 <= j < |sets| && j != i ==> sets'[j] == sets[j]
  }

  lemma OthersStaySame(a: seq<set<nat>>, b: seq<set<nat>>, c: seq<set<nat>>, i: nat)
    requires OthersSame(a, b, i) && OthersSame(b, c, i)
    ensures OthersSame(a, c, i)
  {
  }

  lemma EmptyOneMore(sets: seq<set<nat>>, sets': seq<set<nat>>, i: nat)
    requires EmptyBefore(sets, i) && OthersSame(sets, sets', i) && i < |sets| && sets'[i] == {}
    ensures EmptyBefore(sets', i + 1)
  {
  }

  lemma AllEmpty(sets: seq<set<nat>>)
    requires EmptyBefore(sets, |sets|)
    ensures All(sets) == {}
  {
  }

  lemma GivenToOne(sets: seq<set<nat>>, sets': seq<set<nat>>, i: nat, part: set<nat>, already: nat)
    requires i < |sets| && |sets'| == |sets| && sets'[i] == sets[i] + part && already == |sets[i] * part|
    requires forall j :: 0 <= j < |sets| && j != i ==> sets'[j] == sets[j] && sets[j] !! part
    ensures All(sets') == All(sets) + part && already == |All(sets) * part|
  {
    IntoOne(sets, sets', i, part);
    OnlyInOne(sets, i, part);
  }

  lemma OnlyInOne(sets: seq<set<nat>>, i: nat, part: set<nat>)
    requires i < |sets| && forall j :: 0 <= j < |sets| && j != i ==> sets[j] !! part
    ensures All(sets) * part == sets[i] * part
  {
  }

  /** The union of a list of sets. */
  ghost function All(sets: seq<set<nat>>): set<nat> {
    set i, x | 0 <= i < |sets| && x in sets[i] :: x
  }

  lemma InAll(sets: seq<set<nat>>, i: nat)
    requires i < |sets|
    ensures sets[i] <= All(sets)
  {
  }

  lemma OutOfOne(sets: seq<set<nat>>, sets': seq<set<nat>>, i: nat, gone: set<nat>)
    requires i < |sets| && gone <= sets[i] && |sets'| == |sets| && sets'[i] == sets[i] - gone
    requires forall j :: 0 <= j < |sets| && j != i ==> sets'[j] == sets[j] && sets[j] !! gone
    ensures All(sets') == All(sets) - gone && gone <= All(sets)
  {
    InAll(sets, i);
    forall x | x in All(sets') ensures x in All(sets) && x !in gone {
      var j :| 0 <= j < |sets| && x in sets'[j];
      assert x in sets[j];
    }
    forall x | x in All(sets) && x !in gone ensures x in All(sets') {
      var j :| 0 <= j < |sets| && x in sets[j];
      assert x in sets'[j];
    }
  }

  lemma IntoOne(sets: seq<set<nat>>, sets': seq<set<nat>>, i: nat, more: set<nat>)
    requires i < |sets| && |sets'| == |sets| && sets'[i] == sets[i] + more
    requires forall j :: 0 <= j < |sets| && j != i ==> sets'[j] == sets[j]
    ensures All(sets') == All(sets) + more
  {
    InAll(sets', i);
    forall x | x in All(sets') ensures x in All(sets) + more {
      var j :| 0 <= j < |sets| && x in sets'[j];
      assert x in sets[j] || x in more;
    }
    forall x | x in All(sets) ensures x in All(sets') {
      var j :| 0 <= j < |sets| && x in sets[j];
      assert x in sets'[j];
    }
  }

  lemma ArenasApart(i: nat, j: nat)
    requires i != j
    ensures Span(i * BLOCKS_PER_ARENA, BLOCKS_PER_ARENA) !! Span(j * BLOCKS_PER_ARENA, BLOCKS_PER_ARENA)
  {
  }
}
