/** Fencing generations: creating and bumping them, the guard every transaction
    carries, and the scrubber's check (pkg/metadata/gen.go,
    pkg/metadata/client.go, pkg/scrub/scrubber.go). */
module Generations {
  import opened Common
  import opened Extents
  import opened Etcd
  import opened Delegation
  import opened DelegationInvariant
  import Handover

  datatype TxnReply = Committed(rev: nat) | Missed | Fenced | Unavailable

  /** A generation key holds a generation. */
  ghost predicate TypedGens(kvs: Kvs) {
    forall n :: GenKey(n) in kvs ==> kvs[GenKey(n)].value.Generation?
  }

  class Store {
    const node: Node
    var kvs: Kvs
    var rev: nat
    var guard: Option<nat>

    /** A missing key reads as generation 0. */
    method GetGeneration(n: Node) returns (gen: nat)
      requires TypedGens(kvs)
      ensures gen == GenOf(kvs, n)
    {
      gen := 0;
      if GenKey(n) in kvs {
        gen := kvs[GenKey(n)].value.gen;
      }
    }

    /** Creates the key at 0 unless it exists; the store is as a starting
        process leaves it. */
    method EnsureGenerationKey(n: Node) returns (gen: nat)
      requires TypedGens(kvs)
      modifies `kvs, `rev
      ensures TypedGens(kvs) && GenKey(n) in kvs && gen == GenOf(kvs, n) == GenOf(old(kvs), n)
      ensures kvs == if GenKey(n) in old(kvs) then old(kvs) else SetGen(old(kvs), n, 0, rev)
      ensures rev == if GenKey(n) in old(kvs) then old(rev) else old(rev) + 1
    {
      if GenKey(n) !in kvs {
        kvs, rev := Written(kvs, map[GenKey(n) := Put(Generation(0), 0)], rev + 1), rev + 1;
        return 0;
      }
      gen := GetGeneration(n);
    }

    /** Bumps the generation exactly when it is the expected one, counting a key
        that never existed as 0. */
    method BumpGeneration(n: Node, expected: nat) returns (gen: Option<nat>)
      requires TypedGens(kvs)
      modifies `kvs, `rev
      ensures TypedGens(kvs)
      ensures gen.Some? <==> GenOf(old(kvs), n) == expected
      ensures gen.Some? ==> gen.value == expected + 1 == GenOf(kvs, n)
      ensures gen.Some? ==> kvs == SetGen(old(kvs), n, GenOf(old(kvs), n) + 1, rev) && rev == old(rev) + 1
      ensures gen.None? ==> kvs == old(kvs) && rev == old(rev)
    {
      var key, op := GenKey(n), Put(Generation(expected + 1), 0);
      // A value comparison with a key that does not exist is always false.
      var ok := key in kvs && kvs[key].value == Generation(expected);
      if !ok && expected == 0 {
        ok := key !in kvs;
      }
      if !ok {
        return None;
      }
      kvs, rev := Written(kvs, map[key := op], rev + 1), rev + 1;
      return Some(expected + 1);
    }

    /** A transaction under the guard. A miss is told apart from a fence by
        reading the generation again, unless that read fails. */
    method Txn(cmps: map<Key, Cmp>, ops: map<Key, Op>, readOk: bool) returns (r: TxnReply)
      requires TypedGens(kvs)
      modifies `kvs, `rev
      ensures r.Unavailable? <==> guard.None?
      ensures r.Committed? <==> guard.Some? && Passes(old(kvs), cmps)
                                && GenKey(node) in old(kvs) && old(kvs)[GenKey(node)].value == Generation(guard.value)
      ensures if r.Committed? then kvs == Written(old(kvs), ops, rev) && rev == old(rev) + 1 == r.rev
              else kvs == old(kvs) && rev == old(rev)
      ensures r.Fenced? ==> guard.Some? && GenOf(old(kvs), node) != guard.value
      ensures r.Missed? && readOk ==> GenOf(old(kvs), node) == guard.value
    {
      if guard.None? {
        return Unavailable;
      }
      var key := GenKey(node);
      if key in kvs && kvs[key].value == Generation(guard.value) && Passes(kvs, cmps) {
        kvs, rev := Written(kvs, ops, rev + 1), rev + 1;
        return Committed(rev);
      }
      if readOk {
        var current := GetGeneration(node);
        if current != guard.value {
          return Fenced;
        }
      }
      return Missed;
    }
  }

  // --- The scrubber's check ---------------------------------------------------------------

  /** Extents stamped beyond the generation their writer has reached. */
  function Ahead(exts: seq<Extent>, gens: map<Node, nat>): seq<Extent> {
    if exts == [] then []
    else
      var last := exts[|exts| - 1];
      Ahead(exts[..|exts| - 1], gens) + (if last.node in gens && last.gen > gens[last.node] then [last] else [])
  }

  lemma {:induction false} AheadAre(exts: seq<Extent>, gens: map<Node, nat>)
    ensures forall e :: e in Ahead(exts, gens) <==> e in exts && e.node in gens && e.gen > gens[e.node]
  {
    if exts != [] {
      AheadAre(exts[..|exts| - 1], gens);
      assert exts == exts[..|exts| - 1] + [exts[|exts| - 1]];
    }
  }

  method CheckGenerationConsistency(exts: seq<Extent>, gens: map<Node, nat>) returns (found: seq<Extent>)
    ensures found == Ahead(exts, gens)
    ensures forall e :: e in found <==> e in exts && e.node in gens && e.gen > gens[e.node]
  {
    AheadAre(exts, gens);
    found := [];
    for i := 0 to |exts|
      invariant found == Ahead(exts[..i], gens)
    {
      assert exts[..i + 1][..i] == exts[..i];
      if exts[i].node in gens && exts[i].gen > gens[exts[i].node] {
        found := found + [exts[i]];
      }
    }
    assert exts[..|exts|] == exts;
  }

  lemma {:induction false} NoneAhead(exts: seq<Extent>, gens: map<Node, nat>)
    ensures Ahead(exts, gens) == [] <==> forall e :: e in exts && e.node in gens ==> e.gen <= gens[e.node]
  {
    if exts != [] {
      var most, last := exts[..|exts| - 1], exts[|exts| - 1];
      NoneAhead(most, gens);
      assert exts == most + [last];
    }
  }

  /** Read the extents at one moment of a run and the generations at that moment
      or any later one: the check finds nothing. */
  lemma ScrubFindsNoneAhead(run: seq<Cluster>, acts: seq<Action>, i: nat, j: nat, exts: seq<Extent>, gens: map<Node, nat>)
    requires IsRun(run, acts) && i <= j < |run|
    requires forall e :: e in exts ==> Kept(run[i].kvs, e)
    requires forall n :: n in gens ==> gens[n] == GenOf(run[j].kvs, n)
    ensures Ahead(exts, gens) == []
  {
    forall e | e in exts && e.node in gens ensures e.gen <= gens[e.node] {
      assert Kept(run[i].kvs, e);
      var k :| k in run[i].kvs && run[i].kvs[k].value == Stored(e);
      Handover.StampsAreCurrent(run, acts, i, k);
      Handover.GensGrowFrom(run, acts, i, j, e.node);
    }
    NoneAhead(exts, gens);
  }

  ghost predicate Kept(kvs: Kvs, e: Extent) {
    exists k :: k in kvs && kvs[k].value == Stored(e)
  }
}
