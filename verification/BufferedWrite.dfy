/** A buffered write from its plan to the cluster: what the write object proposes
    is what the many-node machine takes for a write (internal/ipc/writeop.go,
    internal/ipc/datapath.go bufferWriteOp). */
module BufferedWrites {
  import opened Common
  import opened Extents
  import opened WritePath
  import opened Etcd
  import opened Deferred
  import opened PendingWrites
  import opened CachedView
  import opened WriteOps
  import Proposals
  import Delegation
  import LockEntries

  lemma {:induction false} NewStamps(runs: seq<Run>, off: nat, left: nat, chunk: nat, sn: nat, gen: nat, node: Node)
    ensures forall e :: e in NewExtents(runs, off, left, chunk, sn, gen, node) ==> e.node == node && e.gen == gen
  {
    if runs != [] {
      var n := Min(runs[0].length, left);
      NewStamps(runs[1..], off + n, left - n, chunk + 1, sn, gen, node);
    }
  }

  /** `e` carries the stamp of an extent of the list. */
  ghost predicate StampedLike(es: seq<Extent>, e: Extent) {
    exists x :: x in es && x.node == e.node && x.gen == e.gen
  }

  lemma {:induction false} RewrittenStamps(arenas: set<nat>, es: seq<Extent>, start: nat, end: nat, next: nat)
    ensures forall e :: e in Rewritten(arenas, es, start, end, next) ==> StampedLike(es, e)
  {
    if es != [] {
      var next' := NextChunk(arenas, es[0], start, end, next);
      RewrittenStamps(arenas, es[1..], start, end, next');
      forall e | e in Rewritten(arenas, es, start, end, next) ensures StampedLike(es, e) {
        if e in Rewritten(arenas, es[1..], start, end, next') {
          var x :| x in es[1..] && x.node == e.node && x.gen == e.gen;
          assert x in es;
        } else {
          assert es[0] in es && e.node == es[0].node && e.gen == es[0].gen;
        }
      }
    }
  }

  /** Every extent a proposal puts is stamped by its writer, or carries the stamp
      of an extent the writer saw. */
  lemma ProposalStamped(arenas: set<nat>, ino: nat, view: View, es: seq<Extent>, k: nat, w: Write, size: Option<nat>, ops: seq<(Key, Op)>)
    requires Shows(ino, view, es) && k <= |es| && Proposals.OpsPlanned(arenas, ino, es[..k], w, size, ops)
    ensures Delegation.Stamped(w.node, w.gen, view, AsMap(ops))
  {
    var first, m := w.chunk + |w.runs|, AsMap(ops);
    var dels, puts := Removed(arenas, es[..k], w.off, w.End(), first), Rewritten(arenas, es[..k], w.off, w.End(), first);
    NewStamps(w.runs, w.off, w.len, w.chunk, w.sn, w.gen, w.node);
    RewrittenStamps(arenas, es[..k], w.off, w.End(), first);
    forall key | key in m && m[key].Put? && m[key].value.Stored?
      ensures var e := m[key].value.ext;
              || (e.node == w.node && e.gen == w.gen)
              || exists j :: j in view && view[j].value.Stored? && e.node == view[j].value.ext.node && e.gen == view[j].value.ext.gen
    {
      AsMapOf(ops, key, m[key]);
      assert Says(ino, dels, w.New() + puts, size, (key, m[key]));
      var e := m[key].value.ext;
      if e in puts {
        var x :| x in es[..k] && x.node == e.node && x.gen == e.gen;
        assert x in es && view[ExtentKey(ino, x.chunk)].value == Stored(x);
      }
    }
  }

  /** A write planned by the write object on the list a node has cached under an
      exclusive key, and folded into the buffer, is one step of the cluster. */
  lemma WriteIsStep(s: Delegation.Cluster, arenas: set<nat>, ino: nat, es: seq<Extent>, revs: map<nat, nat>, w: Write,
                    size: Option<nat>, cmps: seq<(Key, Cmp)>, ops: seq<(Key, Op)>) returns (s': Delegation.Cluster)
    requires var e := Delegation.At(s, Delegation.Slot(w.node, ino));
             && e.holder.Some? && e.excl && e.view.Some? && w.node in s.guards && s.guards[w.node] == w.gen
             && Shows(ino, e.view.value, es) && Dates(ino, e.view.value, es, revs)
             && forall k :: k in e.view.value ==> InFile(k, ino)
    requires ChunksBelow(es, w.chunk) && w.runs != []
    requires Proposals.OpsPlanned(arenas, ino, es, w, size, ops) && Proposals.CmpsPlanned(arenas, ino, es, w, revs, cmps)
    ensures Delegation.Next(s, Delegation.BufferWrite(w.node, ino, Intent(AsMap(cmps).Keys, AsMap(ops))), s')
  {
    var view := Delegation.At(s, Delegation.Slot(w.node, ino)).view.value;
    assert es[..|es|] == es;
    Proposals.ProposalBuffers(arenas, ino, view, es, revs, w, |es|, cmps, ops, size);
    ProposalStamped(arenas, ino, view, es, |es|, w, size, ops);
    s' := LockEntries.BufferIsStep(s, w.node, ino, cmps, ops);
  }
}
