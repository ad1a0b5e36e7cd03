/** The key space every node shares, and the transactions that change it. */
module Etcd {
  import opened Common
  import opened Extents

  /** Who holds a lock: the session lease it was taken under and a number that
      tells apart the acquisitions made under that lease. */
  datatype Token = Token(lease: nat, n: nat)

  datatype Key =
    | LockKey(ino: nat, excl: bool, holder: Token)
    | GenKey(node: Node)
    | ExtentKey(ino: nat, chunk: nat)
    | InodeKey(ino: nat)

  datatype Value =
    | HeldBy(node: Node)
    | Generation(gen: nat)
    | Stored(ext: Extent)
    | Record(size: nat)

  /** A stored value with the revisions that created and last changed it. A
      lease of 0 is no lease. */
  datatype Kv = Kv(value: Value, create: nat, mod: nat, lease: nat)

  type Kvs = map<Key, Kv>

  datatype Op = Put(value: Value, lease: nat) | Delete

  /** A comparison on one key: created at revision 0, not created at 0, last
      changed at a revision. An absent key has both revisions 0. */
  datatype Cmp = Missing | Present | ModIs(rev: nat)

  predicate Meets(kvs: Kvs, k: Key, c: Cmp) {
    match c
    case Missing => k !in kvs
    case Present => k in kvs
    case ModIs(r) => (if k in kvs then kvs[k].mod else 0) == r
  }

  predicate Passes(kvs: Kvs, cmps: map<Key, Cmp>) {
    forall k :: k in cmps ==> Meets(kvs, k, cmps[k])
  }

  /** What a committed transaction leaves: every key it writes at one revision. */
  function Written(kvs: Kvs, ops: map<Key, Op>, rev: nat): Kvs {
    map k | k in kvs.Keys + ops.Keys && (k in ops ==> ops[k].Put?) ::
      if k in ops then Kv(ops[k].value, if k in kvs then kvs[k].create else rev, rev, ops[k].lease)
      else kvs[k]
  }

  /** The keys that belong to one file. */
  predicate InFile(k: Key, ino: nat) {
    (k.ExtentKey? || k.InodeKey?) && k.ino == ino
  }

  /** No key was changed after `rev`, nor at revision 0. */
  ghost predicate Dated(kvs: Kvs, rev: nat) {
    forall k :: k in kvs ==> 0 < kvs[k].mod <= rev
  }

  /** Keys and values, without revisions. */
  function Values(kvs: Kvs): map<Key, Value> {
    map k | k in kvs :: kvs[k].value
  }

  lemma WrittenDated(kvs: Kvs, ops: map<Key, Op>, rev: nat)
    requires Dated(kvs, rev)
    ensures Dated(Written(kvs, ops, rev + 1), rev + 1)
  {
  }
}
