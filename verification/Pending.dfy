/** The buffer object and its transaction (internal/ipc/delegate.go pending). */
module PendingWrites {
  import opened Common
  import opened Etcd
  import opened Deferred

  /** A transaction's list as a map; a later entry for a key wins. */
  function AsMap<T>(s: seq<(Key, T)>): map<Key, T> {
    if s == [] then map[] else AsMap(s[..|s| - 1])[s[|s| - 1].0 := s[|s| - 1].1]
  }

  /** etcd refuses a transaction that names a key twice. */
  ghost predicate DistinctKeys<T>(s: seq<(Key, T)>) {
    forall i, j :: 0 <= i < j < |s| ==> s[i].0 != s[j].0
  }

  lemma LastIn<T>(s: seq<(Key, T)>, i: nat)
    requires i < |s|
    ensures AsMap(s[..i + 1]) == AsMap(s[..i])[s[i].0 := s[i].1]
  {
    assert s[..i + 1][..i] == s[..i];
  }

  lemma Snoc<T>(s: seq<(Key, T)>, x: (Key, T))
    ensures AsMap(s + [x]) == AsMap(s)[x.0 := x.1]
  {
    assert (s + [x])[..|s|] == s;
  }

  lemma OneMoreCmp<T>(base: map<Key, T>, more: map<Key, T>, own: set<Key>, k: Key, c: T)
    ensures base + (more[k := c] - own)
            == if k in own then base + (more - own) else (base + (more - own))[k := c]
  {
  }

  lemma OneMoreOp<T>(base: map<Key, T>, more: map<Key, T>, k: Key, v: T)
    ensures base + more[k := v] == (base + more)[k := v]
  {
  }

  /** The entries of `m` for the listed keys. */
  function Picked<T>(m: map<Key, T>, keys: seq<Key>): map<Key, T> {
    map k | k in keys && k in m :: m[k]
  }

  lemma PickOne<T>(m: map<Key, T>, keys: seq<Key>, k: Key)
    ensures Picked(m, keys + [k]) == if k in m then Picked(m, keys)[k := m[k]] else Picked(m, keys)
  {
  }

  lemma PickAll<T>(m: map<Key, T>, keys: seq<Key>)
    requires forall k :: k in m ==> k in keys
    ensures Picked(m, keys) == m
  {
  }

  /** `order` lists the keys of `ops`, each once. */
  ghost predicate Lists(order: seq<Key>, ops: set<Key>) {
    && (forall k :: k in order <==> k in ops)
    && (forall i, j :: 0 <= i < j < |order| ==> order[i] != order[j])
  }

  lemma ListOneMore(order: seq<Key>, ops: set<Key>, k: Key)
    requires Lists(order, ops)
    ensures k in ops ==> Lists(order, ops + {k})
    ensures k !in ops ==> Lists(order + [k], ops + {k})
  {
  }

  class Pending {
    var cmps: map<Key, Cmp>
    var ops: map<Key, Op>
    var order: seq<Key>

    /** The order lists every key with an operation once, and only such keys
        are compared. */
    ghost predicate Valid() reads this {
      Lists(order, ops.Keys) && cmps.Keys <= ops.Keys
    }

    ghost function Contents(): Buffer reads this {
      Buffer(cmps, ops)
    }

    constructor ()
      ensures Valid() && Contents() == Empty
    {
      cmps, ops, order := map[], map[], [];
    }

    /** Folds one write's proposal in: comparisons first, and only for keys the
        buffer does not own. */
    method Add(newCmps: seq<(Key, Cmp)>, newOps: seq<(Key, Op)>)
      requires Valid() && AsMap(newCmps).Keys <= AsMap(newOps).Keys
      modifies this
      ensures Valid() && Contents() == Fold(old(Contents()), AsMap(newCmps), AsMap(newOps))
      ensures old(order) <= order
    {
      AddCmps(newCmps);
      AddOps(newOps);
    }

    method AddCmps(newCmps: seq<(Key, Cmp)>)
      modifies `cmps
      ensures cmps == old(cmps) + (AsMap(newCmps) - ops.Keys)
    {
      ghost var base := cmps;
      var i := 0;
      while i < |newCmps|
        invariant 0 <= i <= |newCmps|
        invariant cmps == base + (AsMap(newCmps[..i]) - ops.Keys)
      {
        LastIn(newCmps, i);
        OneMoreCmp(base, AsMap(newCmps[..i]), ops.Keys, newCmps[i].0, newCmps[i].1);
        if newCmps[i].0 !in ops {
          cmps := cmps[newCmps[i].0 := newCmps[i].1];
        }
        i := i + 1;
      }
      assert newCmps[..i] == newCmps;
    }

    method AddOps(newOps: seq<(Key, Op)>)
      requires Lists(order, ops.Keys)
      modifies `ops, `order
      ensures Lists(order, ops.Keys) && ops == old(ops) + AsMap(newOps) && old(order) <= order
    {
      ghost var base := ops;
      var i := 0;
      while i < |newOps|
        invariant 0 <= i <= |newOps|
        invariant ops == base + AsMap(newOps[..i]) && old(order) <= order
        invariant Lists(order, ops.Keys)
      {
        LastIn(newOps, i);
        OneMoreOp(base, AsMap(newOps[..i]), newOps[i].0, newOps[i].1);
        AddOp(newOps[i].0, newOps[i].1);
        i := i + 1;
      }
      assert newOps[..i] == newOps;
    }

    /** A key seen for the first time joins the order; its operation always
        replaces. */
    method AddOp(key: Key, op: Op)
      requires Lists(order, ops.Keys)
      modifies `ops, `order
      ensures Lists(order, ops.Keys) && ops == old(ops)[key := op] && old(order) <= order
    {
      ListOneMore(order, ops.Keys, key);
      assert ops[key := op].Keys == ops.Keys + {key};
      if key !in ops {
        order := order + [key];
      }
      ops := ops[key := op];
    }

    /** The buffered transaction, in the order its keys were first touched. */
    method Txn() returns (outCmps: seq<(Key, Cmp)>, outOps: seq<(Key, Op)>)
      requires Valid()
      ensures AsMap(outCmps) == cmps && AsMap(outOps) == ops
      ensures DistinctKeys(outOps)
      ensures |outOps| == |order| && forall i :: 0 <= i < |order| ==> outOps[i].0 == order[i]
    {
      outCmps, outOps := [], [];
      for i := 0 to |order|
        invariant |outOps| == i && forall j :: 0 <= j < i ==> outOps[j].0 == order[j]
        invariant AsMap(outOps) == Picked(ops, order[..i])
        invariant AsMap(outCmps) == Picked(cmps, order[..i])
      {
        var key := order[i];
        assert key in order;
        assert order[..i + 1] == order[..i] + [key];
        PickOne(ops, order[..i], key);
        PickOne(cmps, order[..i], key);
        if key in cmps {
          Snoc(outCmps, (key, cmps[key]));
          outCmps := outCmps + [(key, cmps[key])];
        }
        Snoc(outOps, (key, ops[key]));
        outOps := outOps + [(key, ops[key])];
      }
      assert order[..|order|] == order;
      PickAll(ops, order);
      PickAll(cmps, order);
    }

    method Reset()
      modifies this
      ensures Valid() && Contents() == Empty
    {
      cmps, ops, order := map[], map[], [];
    }
  }
}
