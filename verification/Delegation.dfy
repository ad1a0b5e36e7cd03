/** Many nodes, one store: cached inode locks, the writes deferred under them,
    lease expiry, recall and fencing (internal/ipc/lockcache.go,
    internal/ipc/retry.go, pkg/metadata/lock.go, pkg/metadata/gen.go). */
module Delegation {
  import opened Common
  import opened Extents
  import opened Etcd
  import opened Deferred

  /** What one node caches about one inode. `lost` and `wedged` are not kept by
      the node: a flush of this buffer committed without the node learning of
      it, and a write was buffered after that. */
  datatype Entry = Entry(holder: Option<Token>, excl: bool, tried: set<Token>, view: Option<View>, buf: Buffer,
                         lost: bool, wedged: bool)

  const Idle := Entry(None, false, {}, None, Empty, false, false)

  function Attempted(e: Entry, tok: Token): Entry {
    e.(tried := e.tried + {tok})
  }

  function Fresh(tok: Token, excl: bool): Entry {
    Entry(Some(tok), excl, {}, None, Empty, false, false)
  }

  datatype Slot = Slot(node: Node, ino: nat)

  /** What a holder token was minted for. */
  datatype Claim = Claim(node: Node, ino: nat, excl: bool)

  /** The store, what every node believes, and two records no node keeps: what
      each token was minted for, and the files as acknowledged. */
  datatype Cluster = Cluster(
    kvs: Kvs, rev: nat,
    live: set<nat>, granted: set<nat>,
    sessions: map<Node, nat>, issued: map<Node, nat>, guards: map<Node, nat>,
    entries: map<Slot, Entry>, owed: set<Key>,
    minted: map<Token, Claim>, truth: map<Key, Value>)

  function At(s: Cluster, slot: Slot): Entry {
    if slot in s.entries then s.entries[slot] else Idle
  }

  /** The lock key an entry believes it holds. */
  function HeldKey(slot: Slot, e: Entry): Key
    requires e.holder.Some?
  {
    LockKey(slot.ino, e.excl, e.holder.value)
  }

  /** The entry's key is really in the store. */
  predicate Holds(s: Cluster, slot: Slot) {
    At(s, slot).holder.Some? && HeldKey(slot, At(s, slot)) in s.kvs
  }

  predicate Writer(s: Cluster, slot: Slot) {
    Holds(s, slot) && At(s, slot).excl
  }

  /** The node's fencing guard: its generation is the one it started with. */
  predicate GuardHolds(s: Cluster, n: Node) {
    n in s.guards && GenKey(n) in s.kvs && s.kvs[GenKey(n)].value == Generation(s.guards[n])
  }

  /** No lock key is in the way. */
  ghost predicate Unblocked(kvs: Kvs, ino: nat, excl: bool) {
    forall k :: k in kvs && k.LockKey? && k.ino == ino ==> !excl && !k.excl
  }

  function Current<T>(m: map<Key, T>, k: Key): Option<T> {
    if k in m then Some(m[k]) else None
  }

  function Stored'(kvs: Kvs, k: Key): Option<Value> {
    if k in kvs then Some(kvs[k].value) else None
  }

  /** The value of a key under operations. */
  function Under(was: Option<Value>, ops: map<Key, Op>, k: Key): Option<Value> {
    if k in ops then if ops[k].Put? then Some(ops[k].value) else None else was
  }

  function ViewOf(kvs: Kvs, ino: nat): View {
    map k | k in kvs && InFile(k, ino) :: Seen(kvs[k].value, kvs[k].mod)
  }

  /** The acknowledged files once an acknowledged write is added. */
  function Acked(truth: map<Key, Value>, ops: map<Key, Op>): map<Key, Value> {
    map k | k in truth.Keys + ops.Keys && (k in ops ==> ops[k].Put?) :: if k in ops then ops[k].value else truth[k]
  }

  /** The acknowledged files once what was buffered on `inos` is gone. */
  function Forgotten(truth: map<Key, Value>, kvs: Kvs, inos: set<nat>): map<Key, Value> {
    map k | k in truth.Keys + kvs.Keys && (k.ExtentKey? || k.InodeKey?)
            && (if k.ino in inos then k in kvs else k in truth)
      :: if k.ino in inos then kvs[k].value else truth[k]
  }

  /** Files whose exclusive key goes with a lease. */
  function Leased(kvs: Kvs, lease: nat): set<nat> {
    set k | k in kvs && k.LockKey? && k.excl && kvs[k].lease == lease :: k.ino
  }

  function Expired(kvs: Kvs, lease: nat): Kvs {
    map k | k in kvs && !(k.LockKey? && kvs[k].lease == lease) :: kvs[k]
  }

  function WithoutKeys(kvs: Kvs, keys: set<Key>): Kvs {
    map k | k in kvs && k !in keys :: kvs[k]
  }

  /** An extent a write puts is stamped by its writer at the generation it
      started with, or carries the stamp of an extent the writer saw. */
  ghost predicate Stamped(n: Node, gen: nat, view: View, ops: map<Key, Op>) {
    forall k :: k in ops && ops[k].Put? && ops[k].value.Stored? ==>
      || (ops[k].value.ext.node == n && ops[k].value.ext.gen == gen)
      || exists j :: j in view && view[j].value.Stored?
                     && ops[k].value.ext.node == view[j].value.ext.node && ops[k].value.ext.gen == view[j].value.ext.gen
  }

  datatype Action =
    | Grant(n: Node, lease: nat)
    | EndSession(n: Node)
    | Expire(lease: nat)
    | Acquire(n: Node, ino: nat, excl: bool, lost: bool)
    | AcquireFails(n: Node, ino: nat, excl: bool)
    | Adopt(n: Node, ino: nat, tok: Token)
    | GiveUp(n: Node, ino: nat)
    | Load(n: Node, ino: nat)
    | ForgetView(n: Node, ino: nat)
    | BufferWrite(n: Node, ino: nat, i: Intent)
    | SyncWrite(n: Node, ino: nat, i: Intent, lost: bool)
    | Flush(n: Node, ino: nat, lost: bool)
    | FindLanded(n: Node, ino: nat)
    | FindKeyLost(n: Node, ino: nat)
    | FindSessionLost(n: Node, ino: nat)
    | FindFenced(n: Node, ino: nat)
    | Drop(n: Node, ino: nat)
    | Release(n: Node, keys: set<Key>)
    | Bump(n: Node)
    | Start(n: Node)

  function Put1(s: Cluster, slot: Slot, e: Entry): Cluster {
    s.(entries := s.entries[slot := e])
  }

  function Mint(s: Cluster, n: Node, ino: nat, excl: bool): Cluster
    requires n in s.sessions
  {
    var tok := Token(s.sessions[n], Issued(s, n) + 1);
    s.(issued := s.issued[n := tok.n], minted := s.minted[tok := Claim(n, ino, excl)])
  }

  function Issued(s: Cluster, n: Node): nat {
    if n in s.issued then s.issued[n] else 0
  }

  function NextToken(s: Cluster, n: Node): Token
    requires n in s.sessions
  {
    Token(s.sessions[n], Issued(s, n) + 1)
  }

  // Sessions and leases.

  ghost predicate GrantStep(s: Cluster, n: Node, lease: nat, s': Cluster) {
    && n !in s.sessions && lease !in s.granted
    && s' == s.(sessions := s.sessions[n := lease], live := s.live + {lease}, granted := s.granted + {lease})
  }

  ghost predicate EndSessionStep(s: Cluster, n: Node, s': Cluster) {
    s' == s.(sessions := s.sessions - {n})
  }

  /** A lease that is not renewed takes every lock key written under it along. */
  ghost predicate ExpireStep(s: Cluster, lease: nat, s': Cluster) {
    && lease in s.live
    && s' == s.(live := s.live - {lease}, kvs := Expired(s.kvs, lease), rev := s.rev + 1,
                truth := Forgotten(s.truth, s.kvs, Leased(s.kvs, lease)))
  }

  // Taking a lock.

  /** The blocking range is empty and the key is written, in one transaction. */
  ghost predicate AcquireStep(s: Cluster, n: Node, ino: nat, excl: bool, lost: bool, s': Cluster) {
    && n in s.sessions && s.sessions[n] in s.live && GuardHolds(s, n)
    && At(s, Slot(n, ino)).holder.None? && Unblocked(s.kvs, ino, excl)
    && var tok := NextToken(s, n);
       s' == Put1(Mint(s, n, ino, excl), Slot(n, ino),
                  if lost then Attempted(At(s, Slot(n, ino)), tok) else Fresh(tok, excl))
             .(kvs := s.kvs[LockKey(ino, excl, tok) := Kv(HeldBy(n), s.rev + 1, s.rev + 1, tok.lease)], rev := s.rev + 1)
  }

  /** An attempt that was rejected or never arrived. */
  ghost predicate AcquireFailsStep(s: Cluster, n: Node, ino: nat, excl: bool, s': Cluster) {
    && n in s.sessions && At(s, Slot(n, ino)).holder.None?
    && s' == Put1(Mint(s, n, ino, excl), Slot(n, ino), Attempted(At(s, Slot(n, ino)), NextToken(s, n)))
  }

  /** An earlier attempt turns out to have committed. */
  ghost predicate AdoptStep(s: Cluster, n: Node, ino: nat, tok: Token, s': Cluster) {
    && tok in At(s, Slot(n, ino)).tried && tok in s.minted && At(s, Slot(n, ino)).holder.None?
    && LockKey(ino, s.minted[tok].excl, tok) in s.kvs
    && s' == Put1(s, Slot(n, ino), Fresh(tok, s.minted[tok].excl))
  }

  ghost predicate GiveUpStep(s: Cluster, n: Node, ino: nat, s': Cluster) {
    s' == Put1(s, Slot(n, ino), At(s, Slot(n, ino)).(tried := {}))
  }

  // Reading and writing under a lock.

  ghost predicate LoadStep(s: Cluster, n: Node, ino: nat, s': Cluster) {
    var e := At(s, Slot(n, ino));
    && e.holder.Some? && e.view.None? && e.buf == Empty
    && s' == Put1(s, Slot(n, ino), e.(view := Some(ViewOf(s.kvs, ino))))
  }

  ghost predicate ForgetViewStep(s: Cluster, n: Node, ino: nat, s': Cluster) {
    s' == Put1(s, Slot(n, ino), At(s, Slot(n, ino)).(view := None))
  }

  /** A write planned on the cached view is acknowledged and only buffered. */
  ghost predicate BufferWriteStep(s: Cluster, n: Node, ino: nat, i: Intent, s': Cluster) {
    var e := At(s, Slot(n, ino));
    && e.holder.Some? && e.excl && e.view.Some? && n in s.guards
    && WritePlan(ino, e.view.value, i) && Stamped(n, s.guards[n], e.view.value, i.ops)
    && s' == Put1(s, Slot(n, ino), e.(buf := Fold(e.buf, CmpsFor(e.view.value, i.checked), i.ops),
                                      view := Some(Replay(e.view.value, i.ops, 0)), wedged := e.lost))
             .(truth := if Holds(s, Slot(n, ino)) then Acked(s.truth, i.ops) else s.truth)
  }

  /** A write that commits at once, while its key is in the store. */
  ghost predicate SyncWriteStep(s: Cluster, n: Node, ino: nat, i: Intent, lost: bool, s': Cluster) {
    var e := At(s, Slot(n, ino));
    && e.holder.Some? && e.excl && e.view.Some? && e.buf == Empty && GuardHolds(s, n)
    && WritePlan(ino, e.view.value, i) && Stamped(n, s.guards[n], e.view.value, i.ops)
    && Passes(s.kvs, CmpsFor(e.view.value, i.checked)) && Holds(s, Slot(n, ino))
    && s' == Put1(s, Slot(n, ino), e.(view := if lost then None else Some(Replay(e.view.value, i.ops, s.rev + 1))))
             .(kvs := Written(s.kvs, i.ops, s.rev + 1), rev := s.rev + 1, truth := Acked(s.truth, i.ops))
  }

  /** The buffer is published while the exact token it was filled under exists. */
  ghost predicate FlushStep(s: Cluster, n: Node, ino: nat, lost: bool, s': Cluster) {
    var e := At(s, Slot(n, ino));
    && e.holder.Some? && e.buf != Empty && GuardHolds(s, n)
    && Passes(s.kvs, e.buf.cmps) && HeldKey(Slot(n, ino), e) in s.kvs
    && s' == Put1(s, Slot(n, ino), if lost then e.(lost := true) else Published(e, PutRevs(e.buf.ops, s.rev + 1)))
             .(kvs := Written(s.kvs, e.buf.ops, s.rev + 1), rev := s.rev + 1)
  }

  /** A rejected flush whose extents are all in the store is taken as landed. */
  ghost predicate FindLandedStep(s: Cluster, n: Node, ino: nat, s': Cluster) {
    var e := At(s, Slot(n, ino));
    && e.holder.Some? && e.buf != Empty
    && !(Passes(s.kvs, e.buf.cmps) && HeldKey(Slot(n, ino), e) in s.kvs) && LooksLanded(s.kvs, e.buf.ops)
    && s' == Put1(s, Slot(n, ino), Published(e, PublishedRevs(s.kvs, ino)))
  }

  // Losing and giving up a lock.

  ghost predicate FindKeyLostStep(s: Cluster, n: Node, ino: nat, s': Cluster) {
    && At(s, Slot(n, ino)).holder.Some? && HeldKey(Slot(n, ino), At(s, Slot(n, ino))) !in s.kvs
    && s' == Put1(s, Slot(n, ino), Idle)
  }

  /** The session the key was written under is no longer this node's. */
  ghost predicate FindSessionLostStep(s: Cluster, n: Node, ino: nat, s': Cluster) {
    && At(s, Slot(n, ino)).holder.Some?
    && !(n in s.sessions && s.sessions[n] == At(s, Slot(n, ino)).holder.value.lease)
    && s' == Put1(s, Slot(n, ino), Idle)
             .(truth := if Writer(s, Slot(n, ino)) then Forgotten(s.truth, s.kvs, {ino}) else s.truth)
  }

  ghost predicate FindFencedStep(s: Cluster, n: Node, ino: nat, s': Cluster) {
    && At(s, Slot(n, ino)).holder.Some? && !GuardHolds(s, n)
    && s' == Put1(s, Slot(n, ino), At(s, Slot(n, ino)).(buf := Empty, view := None, lost := false, wedged := false))
             .(truth := if Writer(s, Slot(n, ino)) then Forgotten(s.truth, s.kvs, {ino}) else s.truth)
  }

  /** A key may be given up only with nothing buffered under it. */
  ghost predicate DropStep(s: Cluster, n: Node, ino: nat, s': Cluster) {
    && At(s, Slot(n, ino)).holder.Some? && At(s, Slot(n, ino)).buf == Empty
    && s' == Put1(s, Slot(n, ino), Idle).(owed := s.owed + {HeldKey(Slot(n, ino), At(s, Slot(n, ino)))})
  }

  /** Keys given up are deleted, in batches, whenever the delete arrives. */
  ghost predicate ReleaseStep(s: Cluster, n: Node, keys: set<Key>, s': Cluster) {
    && keys <= s.owed && GuardHolds(s, n)
    && s' == s.(kvs := WithoutKeys(s.kvs, keys), rev := s.rev + 1)
  }

  // Fencing and restart.

  function GenOf(kvs: Kvs, n: Node): nat {
    if GenKey(n) in kvs && kvs[GenKey(n)].value.Generation? then kvs[GenKey(n)].value.gen else 0
  }

  function SetGen(kvs: Kvs, n: Node, gen: nat, rev: nat): Kvs {
    Written(kvs, map[GenKey(n) := Put(Generation(gen), 0)], rev)
  }

  ghost predicate BumpStep(s: Cluster, n: Node, s': Cluster) {
    s' == s.(kvs := SetGen(s.kvs, n, GenOf(s.kvs, n) + 1, s.rev + 1), rev := s.rev + 1)
  }

  /** The process starts over: it resolves its generation, creating the key if
      it must, and remembers nothing else. */
  ghost predicate StartStep(s: Cluster, n: Node, s': Cluster) {
    s' == s.(kvs := if GenKey(n) in s.kvs then s.kvs else SetGen(s.kvs, n, 0, s.rev + 1), rev := s.rev + 1,
             sessions := s.sessions - {n}, issued := s.issued - {n}, guards := s.guards[n := GenOf(s.kvs, n)],
             entries := map slot | slot in s.entries && slot.node != n :: s.entries[slot],
             truth := Forgotten(s.truth, s.kvs, Held(s, n)))
  }

  ghost predicate Next(s: Cluster, a: Action, s': Cluster) {
    match a
    case Grant(n, lease) => GrantStep(s, n, lease, s')
    case EndSession(n) => EndSessionStep(s, n, s')
    case Expire(lease) => ExpireStep(s, lease, s')
    case Acquire(n, ino, excl, lost) => AcquireStep(s, n, ino, excl, lost, s')
    case AcquireFails(n, ino, excl) => AcquireFailsStep(s, n, ino, excl, s')
    case Adopt(n, ino, tok) => AdoptStep(s, n, ino, tok, s')
    case GiveUp(n, ino) => GiveUpStep(s, n, ino, s')
    case Load(n, ino) => LoadStep(s, n, ino, s')
    case ForgetView(n, ino) => ForgetViewStep(s, n, ino, s')
    case BufferWrite(n, ino, i) => BufferWriteStep(s, n, ino, i, s')
    case SyncWrite(n, ino, i, lost) => SyncWriteStep(s, n, ino, i, lost, s')
    case Flush(n, ino, lost) => FlushStep(s, n, ino, lost, s')
    case FindLanded(n, ino) => FindLandedStep(s, n, ino, s')
    case FindKeyLost(n, ino) => FindKeyLostStep(s, n, ino, s')
    case FindSessionLost(n, ino) => FindSessionLostStep(s, n, ino, s')
    case FindFenced(n, ino) => FindFencedStep(s, n, ino, s')
    case Drop(n, ino) => DropStep(s, n, ino, s')
    case Release(n, keys) => ReleaseStep(s, n, keys, s')
    case Bump(n) => BumpStep(s, n, s')
    case Start(n) => StartStep(s, n, s')
  }

  /** Files whose exclusive key a node holds. */
  function Held(s: Cluster, n: Node): set<nat> {
    set slot | slot in s.entries && slot.node == n && Writer(s, slot) :: slot.ino
  }

  /** An entry whose buffer is in the store, its view dated by it. */
  function Published(e: Entry, revs: map<Key, nat>): Entry {
    e.(buf := Empty, lost := false, wedged := false,
       view := if e.view.Some? then Some(Refresh(e.view.value, revs)) else None)
  }

  // --- What every state keeps -----------------------------------------------

  /** Leases and tokens are never used twice. */
  ghost predicate Tokens(s: Cluster) {
    && s.live <= s.granted
    && (forall n :: n in s.sessions ==> s.sessions[n] in s.granted)
    && (forall m, n :: m in s.sessions && n in s.sessions && m != n ==> s.sessions[m] != s.sessions[n])
    && (forall t :: t in s.minted ==> t.lease in s.granted)
    && (forall n, t :: n in s.sessions && t in s.minted && t.lease == s.sessions[n] ==> t.n <= Issued(s, n))
  }

  /** A lock key is the one its token was minted for, and lives with its lease. */
  ghost predicate LockOk(s: Cluster, k: Key)
    requires k in s.kvs && k.LockKey?
  {
    && k.holder in s.minted && s.minted[k.holder].ino == k.ino && s.minted[k.holder].excl == k.excl
    && s.kvs[k].lease == k.holder.lease && k.holder.lease in s.live
  }

  /** An exclusive lock key is alone on its inode. */
  ghost predicate Locks(s: Cluster) {
    && (forall k :: k in s.kvs && k.LockKey? ==> LockOk(s, k))
    && (forall j, k :: j in s.kvs && k in s.kvs && j.LockKey? && k.LockKey? && j.ino == k.ino && j != k
          ==> !j.excl && !k.excl)
  }

  ghost predicate EntryOk(minted: map<Token, Claim>, slot: Slot, e: Entry) {
    && (e.holder.Some? ==> e.holder.value in minted && e.tried == {}
                           && minted[e.holder.value] == Claim(slot.node, slot.ino, e.excl))
    && (e.holder.None? ==> e.view.None? && e.buf == Empty)
    && (forall t :: t in e.tried ==> t in minted && minted[t].node == slot.node && minted[t].ino == slot.ino)
    && (e.buf != Empty ==> e.excl)
    && (forall k :: k in e.buf.ops ==> InFile(k, slot.ino)) && e.buf.cmps.Keys <= e.buf.ops.Keys
  }

  /** No entry holds, or may still adopt, a token. */
  ghost predicate Unused(entries: map<Slot, Entry>, t: Token) {
    forall slot :: slot in entries ==> entries[slot].holder != Some(t) && t !in entries[slot].tried
  }

  ghost predicate Entries(s: Cluster) {
    && (forall slot :: slot in s.entries ==> EntryOk(s.minted, slot, s.entries[slot]))
    && (forall k :: k in s.owed ==> k.LockKey? && k.holder in s.minted && Unused(s.entries, k.holder))
  }

  ghost predicate NoWriter(s: Cluster, ino: nat) {
    forall slot :: slot in s.entries && slot.ino == ino ==> !Writer(s, slot)
  }

  /** A held file's view and buffer are true to the store. */
  ghost predicate HeldOk(kvs: Kvs, ino: nat, e: Entry) {
    && (e.view.Some? ==> Agrees(ino, kvs, e.buf, e.view.value) && Topped(e.buf.ops, e.view.value))
    && Progress(kvs, e.buf, e.lost, e.wedged)
  }

  /** The acknowledged file is the store's, under the operations of the node
      that holds it. */
  ghost predicate TruthOk(s: Cluster, k: Key) {
    && (forall slot :: slot in s.entries && InFile(k, slot.ino) && Writer(s, slot) ==>
          Current(s.truth, k) == Under(Stored'(s.kvs, k), s.entries[slot].buf.ops, k))
    && ((k.ExtentKey? || k.InodeKey?) && NoWriter(s, k.ino) ==> Current(s.truth, k) == Stored'(s.kvs, k))
  }

  ghost predicate Files(s: Cluster) {
    && (forall slot :: slot in s.entries && Holds(s, slot) ==> HeldOk(s.kvs, slot.ino, s.entries[slot]))
    && (forall k :: TruthOk(s, k))
  }

  ghost predicate StampOk(kvs: Kvs, v: Value) {
    v.Stored? ==> GenKey(v.ext.node) in kvs && kvs[GenKey(v.ext.node)].value.Generation?
                  && v.ext.gen <= kvs[GenKey(v.ext.node)].value.gen
  }

  ghost predicate EntryStamps(kvs: Kvs, e: Entry) {
    && (e.view.Some? ==> forall k :: k in e.view.value ==> StampOk(kvs, e.view.value[k].value))
    && (forall k :: k in e.buf.ops && e.buf.ops[k].Put? ==> StampOk(kvs, e.buf.ops[k].value))
  }

  /** No extent, published or cached, is stamped beyond its writer's generation. */
  ghost predicate Stamps(s: Cluster) {
    && (forall n :: n in s.guards ==> GenKey(n) in s.kvs && s.kvs[GenKey(n)].value.Generation?
                                      && s.guards[n] <= s.kvs[GenKey(n)].value.gen)
    && (forall n :: GenKey(n) in s.kvs ==> s.kvs[GenKey(n)].value.Generation?)
    && (forall k :: k in s.kvs ==> StampOk(s.kvs, s.kvs[k].value))
    && (forall slot :: slot in s.entries ==> EntryStamps(s.kvs, s.entries[slot]))
  }

  ghost predicate Inv(s: Cluster) {
    Tokens(s) && Locks(s) && Entries(s) && Files(s) && Stamps(s)
  }

  predicate FileKey(k: Key) {
    k.ExtentKey? || k.InodeKey?
  }
}
