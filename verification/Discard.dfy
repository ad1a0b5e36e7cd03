/** Runs on which giving blocks back takes them from a published file
    (internal/ipc/delegate.go discardPending, internal/ipc/datapath.go
    commitWriteOp). */
module Discards {
  import opened Common
  import opened Extents
  import opened WritePath
  import opened ReadBack
  import opened DeviceFlush
  import opened Volume

  /** The first block of the file, put on device block `d`. */
  function Block(d: nat, node: Node): Write {
    Write(0, BLOCK, [Run(d * BLOCK, BLOCK)], d, d, 1, node)
  }

  function Put(d: nat, node: Node): Extent {
    Extent(d, d, node, 1, 0, d * BLOCK, BLOCK)
  }

  lemma BlockIs(d: nat, node: Node)
    requires d < 2
    ensures Block(d, node).New() == [Put(d, node)] && Fits(Block(d, node).runs, BLOCK)
    ensures RunBlocks(Block(d, node).runs) == {d} && DisjointSpans(Block(d, node).runs)
    ensures InArena({0}, d * BLOCK, BLOCK) && AllBlocks([Put(d, node)]) == {d}
  {
    var run := Run(d * BLOCK, BLOCK);
    OneRun(run, 0, BLOCK, d, d, 1, node);
    assert [run][1..] == [] && [Put(d, node)][1..] == [];
    assert RangeBlocks(d * BLOCK, BLOCK) == {d};
  }

  /** The block over an empty file. */
  lemma WritesFirst(data: seq<bv8>, node: Node)
    requires |data| == BLOCK
    ensures CanWrite({0}, {}, Blank(), Block(0, node), data, [Put(0, node)])
  {
    BlockIs(0, node);
  }

  /** A second block over the first, which is buried whole. */
  lemma WritesSecond(f: File, data: seq<bv8>, node: Node)
    requires |data| == BLOCK && f.view == [Put(0, node)]
    ensures CanWrite({0}, {0}, f, Block(1, node), data, [Put(1, node)])
    ensures AllFreed({0}, f.view, 0, BLOCK) == {0}
  {
    BlockIs(0, node);
    BlockIs(1, node);
    var e := Put(0, node);
    assert Survivors({0}, e, 0, BLOCK, 2) == [] && f.view[1..] == [];
    assert Pieces({0}, f.view, 0, BLOCK, 2) == [];
    assert Freed({0}, e, 0, BLOCK) == RangeBlocks(0, BLOCK) == {0};
  }

  /** A file with one buffered block. */
  lemma OneBuffered(dev: Device, data: seq<bv8>, node: Node) returns (run: seq<Vol>, steps: seq<Step>)
    requires |data| == BLOCK
    ensures IsRun(run, steps) && |steps| == 2 && AllSafe(run, steps, 2) && steps[1].WriteTo?
    ensures run[2].arenas == {0} && run[2].used == {0} && run[2].files.Keys == {1}
    ensures var f := run[2].files[1]; f.view == [Put(0, node)] && f.owed == {} && f.runs == {0} && !f.lost && !f.wedged
  {
    WritesFirst(data, node);
    BlockIs(0, node);
    var w, after := Block(0, node), [Put(0, node)];
    var s0 := Vol(dev, {0}, {}, map[]);
    var s1 := s0.(files := map[1 := Blank()]);
    var s2 := s1.(dev := WrittenDev(dev, w, data, true), used := {0},
                  files := map[1 := WrittenFile({0}, Blank(), w, data, true, after)]);
    assert AllFreed({0}, [], 0, BLOCK) == {};
    run, steps := [s0, s1, s2], [Create(1), WriteTo(1, w, data, true, after)];
    assert Next(s0, steps[0], s1) && Next(s1, steps[1], s2);
    forall i | 0 <= i < 2 ensures StepAt(run, steps, i) {
    }
  }

  /** A file with one published block. */
  lemma OnePublished(dev: Device, data: seq<bv8>, node: Node) returns (run: seq<Vol>, steps: seq<Step>)
    requires |data| == BLOCK
    ensures IsRun(run, steps) && |steps| == 3 && AllSafe(run, steps, 3)
    ensures run[3].arenas == {0} && run[3].used == {0} && run[3].files.Keys == {1}
    ensures var f := run[3].files[1]; f.view == [Put(0, node)] && IsFlushed(f)
  {
    run, steps := OneBuffered(dev, data, node);
    var s := run[2];
    var f := s.files[1];
    var s3 := s.(dev := Through(s.dev, f.ram), used := s.used - f.owed, files := s.files[1 := FlushedFile(f)]);
    OneMore(run, steps, Flush(1), s3);
    run, steps := run + [s3], steps + [Flush(1)];
  }

  lemma OneMore(run: seq<Vol>, steps: seq<Step>, step: Step, s': Vol)
    requires IsRun(run, steps) && Next(run[|steps|], step, s')
    ensures IsRun(run + [s'], steps + [step])
    ensures AllSafe(run, steps, |steps|) ==> AllSafe(run + [s'], steps + [step], |steps|)
  {
    var run', steps' := run + [s'], steps + [step];
    forall i | 0 <= i < |steps'| ensures StepAt(run', steps', i) {
      if i < |steps| {
        assert StepAt(run, steps, i);
      }
    }
  }

  /** One published block, a buffered write over it, a discard: the published
      block is free. */
  lemma DiscardFreesPublished(dev: Device, data: seq<bv8>, node: Node) returns (run: seq<Vol>, steps: seq<Step>)
    requires |data| == BLOCK
    ensures IsRun(run, steps) && |steps| == 5 && AllSafe(run, steps, 4) && steps[4] == Discard(1)
    ensures 1 in run[5].files && 0 in AllBlocks(run[5].files[1].pub) && 0 !in run[5].used
  {
    run, steps := OnePublished(dev, data, node);
    var s, w, after := run[3], Block(1, node), [Put(1, node)];
    var f := s.files[1];
    WritesSecond(f, data, node);
    BlockIs(0, node);
    var g := WrittenFile({0}, f, w, data, true, after);
    var s4 := s.(used := s.used + RunBlocks(w.runs), files := s.files[1 := g]);
    OneMore(run, steps, WriteTo(1, w, data, true, after), s4);
    run, steps := run + [s4], steps + [WriteTo(1, w, data, true, after)];
    assert AllSafe(run, steps, 4);
    var s5 := s4.(used := s4.used - GivesBack(g), files := s4.files[1 := CrashedFile(g)]);
    OneMore(run, steps, Discard(1), s5);
    run, steps := run + [s5], steps + [Discard(1)];
    assert 0 in g.owed && AllBlocks(g.pub) == {0};
  }

  /** The first write to an empty file, a flush of it that lands and reports an
      error, a discard: nothing was buried, and the published block is free. */
  lemma LostFlushFreesPublished(dev: Device, data: seq<bv8>, node: Node) returns (run: seq<Vol>, steps: seq<Step>)
    requires |data| == BLOCK
    ensures IsRun(run, steps) && |steps| == 4 && AllSafe(run, steps, 3)
    ensures steps[1].WriteTo? && steps[2] == FlushErrs(1, true) && steps[3] == Discard(1)
    ensures 1 in run[3].files && run[3].files[1].owed == {}
    ensures 1 in run[4].files && 0 in AllBlocks(run[4].files[1].pub) && 0 !in run[4].used
  {
    run, steps := OneBuffered(dev, data, node);
    BlockIs(0, node);
    var s := run[2];
    var f := s.files[1];
    var s3 := s.(dev := Through(s.dev, f.ram), files := s.files[1 := UnsureFile(f, true)]);
    OneMore(run, steps, FlushErrs(1, true), s3);
    run, steps := run + [s3], steps + [FlushErrs(1, true)];
    assert AllSafe(run, steps, 3);
    var g := s3.files[1];
    var s4 := s3.(used := s3.used - GivesBack(g), files := s3.files[1 := CrashedFile(g)]);
    OneMore(run, steps, Discard(1), s4);
    run, steps := run + [s4], steps + [Discard(1)];
  }

  /** The block again, under later numbers, over the extent its first attempt
      left. */
  lemma WritesAgain(data: seq<bv8>, node: Node)
    requires |data| == BLOCK
    ensures var w, e := Block(0, node).(chunk := 1, sn := 1), Put(0, node).(chunk := 1, sn := 1);
            && CanRecommit({0}, {}, Blank(), Some(First(0, 0, [Put(0, node)])), w, data, [e])
            && AllFreed({0}, [Put(0, node)], w.off, w.End()) == {0} && AllBlocks([e]) == {0}
  {
    WritesFirst(data, node);
    BlockIs(0, node);
    var w, e, was := Block(0, node).(chunk := 1, sn := 1), Put(0, node).(chunk := 1, sn := 1), [Put(0, node)];
    assert w.(chunk := 0, sn := 0) == Block(0, node);
    OneRun(w.runs[0], 0, BLOCK, 1, 1, 1, node);
    assert Survivors({0}, was[0], 0, BLOCK, 2) == [] && was[1..] == [] && [e][1..] == [];
    assert Pieces({0}, was, 0, BLOCK, 2) == [];
    assert Freed({0}, was[0], 0, BLOCK) == RangeBlocks(0, BLOCK) == {0};
  }

  /** A direct write that lands with its reply lost, is rejected when proposed
      again, and is planned over its own extent: the block it commits is free. */
  lemma RecommitFreesPublished(dev: Device, data: seq<bv8>, node: Node) returns (run: seq<Vol>, steps: seq<Step>)
    requires |data| == BLOCK
    ensures IsRun(run, steps) && |steps| == 2 && AllSafe(run, steps, 1) && steps[1].Recommit? && steps[1].first.Some?
    ensures 1 in run[2].files && 0 in AllBlocks(run[2].files[1].pub) && 0 !in run[2].used
  {
    WritesAgain(data, node);
    BlockIs(0, node);
    var w, after := Block(0, node).(chunk := 1, sn := 1), [Put(0, node).(chunk := 1, sn := 1)];
    var first := Some(First(0, 0, [Put(0, node)]));
    var s0 := Vol(dev, {0}, {}, map[]);
    var s1 := s0.(files := map[1 := Blank()]);
    var s2 := s1.(dev := WrittenDev(dev, w, data, false), used := {} + RunBlocks(w.runs) - {0},
                  files := map[1 := CommittedFile(Blank(), w, data, after)]);
    run, steps := [s0, s1, s2], [Create(1), Recommit(1, first, w, data, after)];
    assert Next(s0, steps[0], s1) && Next(s1, steps[1], s2);
    forall i | 0 <= i < 2 ensures StepAt(run, steps, i) {
    }
  }

  /** A direct write whose commit landed and reported an error: its runs are
      given back, and the published block is free. */
  lemma LostCommitFreesPublished(dev: Device, data: seq<bv8>, node: Node) returns (run: seq<Vol>, steps: seq<Step>)
    requires |data| == BLOCK
    ensures IsRun(run, steps) && |steps| == 2 && AllSafe(run, steps, 1) && steps[1].CommitErrs?
    ensures 1 in run[2].files && 0 in AllBlocks(run[2].files[1].pub) && 0 !in run[2].used
  {
    WritesFirst(data, node);
    BlockIs(0, node);
    var w, after := Block(0, node), [Put(0, node)];
    var s0 := Vol(dev, {0}, {}, map[]);
    var s1 := s0.(files := map[1 := Blank()]);
    var s2 := s1.(dev := WrittenDev(dev, w, data, false), files := map[1 := CommittedFile(Blank(), w, data, after)]);
    run, steps := [s0, s1, s2], [Create(1), CommitErrs(1, w, data, after, true)];
    assert Next(s0, steps[0], s1) && Next(s1, steps[1], s2);
    forall i | 0 <= i < 2 ensures StepAt(run, steps, i) {
    }
  }
}
