/** Arena ownership across nodes and the blocks each node hands out and names
    (pkg/arena/allocator.go, pkg/metadata/arena.go). */
module Ownership {
  import opened Common
  import opened Extents
  import opened WritePath
  import Allocation
  import ArenaPool
  import Volume

  /** The arenas a node allocates from. */
  function ArenasOf(s: ArenaPool.Cluster, n: Node): set<nat> {
    set r | r in s.held && r.node == n :: r.id
  }

  /** Every arena attached again after an error was still on record. */
  ghost predicate Recorded(pool: seq<ArenaPool.Cluster>, acts: seq<ArenaPool.Action>, t: nat)
    requires t <= |acts| && |pool| == |acts| + 1
  {
    ArenaPool.IsRun(pool, acts) && forall i :: 0 <= i < t ==> ArenaPool.StillRecorded(acts[i], pool[i + 1])
  }

  lemma ArenasDisjoint(pool: seq<ArenaPool.Cluster>, acts: seq<ArenaPool.Action>, t: nat, m: Node, n: Node)
    requires |pool| == |acts| + 1 && t <= |acts| && Recorded(pool, acts, t) && m != n
    ensures ArenasOf(pool[t], m) !! ArenasOf(pool[t], n)
  {
    forall id | id in ArenasOf(pool[t], m) && id in ArenasOf(pool[t], n) ensures false {
      ArenaPool.NoSharedArena(pool, acts, t, ArenaPool.Record(m, id), ArenaPool.Record(n, id));
    }
  }

  /** A range inside one arena has its blocks there. */
  lemma BlockIsHome(arenas: set<nat>, off: nat, len: nat, b: nat)
    requires Aligned(off) && InArena(arenas, off, len) && b in RangeBlocks(off, len)
    ensures b / Allocation.BLOCKS_PER_ARENA in arenas
  {
    assert b * BLOCK < off + len;
    assert b * BLOCK / ARENA == b / Allocation.BLOCKS_PER_ARENA;
  }

  lemma {:induction false} RunsAreHome(arenas: set<nat>, runs: seq<Run>, b: nat)
    requires b in RunBlocks(runs)
    requires forall i :: 0 <= i < |runs| ==> Aligned(runs[i].diskOff) && InArena(arenas, runs[i].diskOff, runs[i].length)
    ensures b / Allocation.BLOCKS_PER_ARENA in arenas
  {
    if b in RangeBlocks(runs[0].diskOff, runs[0].length) {
      BlockIsHome(arenas, runs[0].diskOff, runs[0].length, b);
    } else {
      RunsAreHome(arenas, runs[1..], b);
    }
  }

  /** What two nodes have reserved at one moment shares no block. */
  lemma ReservedApart(pool: seq<ArenaPool.Cluster>, acts: seq<ArenaPool.Action>, t: nat, m: Node, n: Node,
                      was: set<nat>, free: set<nat>, runs: seq<Run>, got: nat,
                      was': set<nat>, free': set<nat>, runs': seq<Run>, got': nat)
    requires |pool| == |acts| + 1 && t <= |acts| && Recorded(pool, acts, t) && m != n
    requires Allocation.Reserved(was, free, ArenasOf(pool[t], m), runs, got)
    requires Allocation.Reserved(was', free', ArenasOf(pool[t], n), runs', got')
    ensures RunBlocks(runs) !! RunBlocks(runs')
  {
    ArenasDisjoint(pool, acts, t, m, n);
    forall b | b in RunBlocks(runs) && b in RunBlocks(runs') ensures false {
      RunsAreHome(ArenasOf(pool[t], m), runs, b);
      RunsAreHome(ArenasOf(pool[t], n), runs', b);
    }
  }

  lemma ListIsHome(arenas: set<nat>, es: seq<Extent>, b: nat)
    requires Volume.Homed(arenas, es) && Good(es) && b in AllBlocks(es)
    ensures b / Allocation.BLOCKS_PER_ARENA in arenas
  {
    var i := BlocksAreSomeones(es, b);
    BlockIsHome(arenas, es[i].diskOff, es[i].length, b);
  }

  lemma NamedIsHome(vol: seq<Volume.Vol>, steps: seq<Volume.Step>, u: nat, ino: nat, b: nat)
    requires Volume.IsRun(vol, steps) && u < |vol| && Volume.AllSafe(vol, steps, u)
    requires ino in vol[u].files && Volume.NamedBy(vol[u].files[ino], b)
    ensures b / Allocation.BLOCKS_PER_ARENA in vol[u].arenas
  {
    Volume.RunInv(vol, steps, u);
    var f := vol[u].files[ino];
    assert Volume.FileOk(vol[u], f);
    if b in AllBlocks(f.pub) {
      ListIsHome(vol[u].arenas, f.pub, b);
    } else {
      ListIsHome(vol[u].arenas, f.view, b);
    }
  }

  /** No block has two owners: with each node working in arenas it holds, a block
      named by a file of one is named by no file of the other. */
  lemma NodesShareNoBlock(pool: seq<ArenaPool.Cluster>, acts: seq<ArenaPool.Action>, t: nat, m: Node, n: Node,
                          vol: seq<Volume.Vol>, steps: seq<Volume.Step>, u: nat, ino: nat,
                          vol': seq<Volume.Vol>, steps': seq<Volume.Step>, u': nat, ino': nat, b: nat)
    requires |pool| == |acts| + 1 && t <= |acts| && Recorded(pool, acts, t) && m != n
    requires Volume.IsRun(vol, steps) && u < |vol| && Volume.AllSafe(vol, steps, u)
    requires Volume.IsRun(vol', steps') && u' < |vol'| && Volume.AllSafe(vol', steps', u')
    requires vol[u].arenas <= ArenasOf(pool[t], m) && vol'[u'].arenas <= ArenasOf(pool[t], n)
    requires ino in vol[u].files && Volume.NamedBy(vol[u].files[ino], b) && ino' in vol'[u'].files
    ensures !Volume.NamedBy(vol'[u'].files[ino'], b)
  {
    ArenasDisjoint(pool, acts, t, m, n);
    NamedIsHome(vol, steps, u, ino, b);
    if Volume.NamedBy(vol'[u'].files[ino'], b) {
      NamedIsHome(vol', steps', u', ino', b);
    }
  }
}
