/** Publishing many files' buffers in shared transactions
    (internal/ipc/delegate.go flushEntries, commitFlushBatch). */
module FlushBatch {
  import opened Common
  import opened Etcd
  import opened Deferred

  /** One file's proposal: its buffer, with its lock key among the comparisons. */
  datatype Member = Member(ino: nat, cmps: map<Key, Cmp>, ops: map<Key, Op>)

  /** A proposal asserts and changes only things about its own file. */
  ghost predicate OwnKeys(m: Member) {
    && (forall k :: k in m.ops ==> InFile(k, m.ino))
    && (forall k :: k in m.cmps ==> InFile(k, m.ino) || (k.LockKey? && k.ino == m.ino))
  }

  ghost predicate Separate(ms: seq<Member>) {
    && (forall i :: 0 <= i < |ms| ==> OwnKeys(ms[i]))
    && (forall i, j :: 0 <= i < j < |ms| ==> ms[i].ino != ms[j].ino)
  }

  /** The files one after another, each in a transaction of its own. */
  ghost function Alone(kvs: Kvs, rev: nat, ms: seq<Member>): Kvs
    decreases |ms|
  {
    if ms == [] then kvs
    else if Passes(kvs, ms[0].cmps) then Alone(Written(kvs, ms[0].ops, rev + 1), rev + 1, ms[1..])
    else Alone(kvs, rev, ms[1..])
  }

  /** All operations of a list of members. */
  function Union(ms: seq<Member>): map<Key, Op> {
    if ms == [] then map[] else Union(ms[..|ms| - 1]) + ms[|ms| - 1].ops
  }

  function Comparisons(ms: seq<Member>): map<Key, Cmp> {
    if ms == [] then map[] else Comparisons(ms[..|ms| - 1]) + ms[|ms| - 1].cmps
  }

  /** The operations of the members whose comparisons hold in `base`. */
  ghost function Accepted(base: Kvs, ms: seq<Member>): map<Key, Op> {
    if ms == [] then map[]
    else Accepted(base, ms[..|ms| - 1])
         + if Passes(base, ms[|ms| - 1].cmps) then ms[|ms| - 1].ops else map[]
  }

  lemma SliceLast(ms: seq<Member>, p: nat, q: nat)
    requires p < q <= |ms|
    ensures Union(ms[p..q]) == Union(ms[p..q - 1]) + ms[q - 1].ops
    ensures Comparisons(ms[p..q]) == Comparisons(ms[p..q - 1]) + ms[q - 1].cmps
  {
    assert ms[p..q][..q - 1 - p] == ms[p..q - 1];
  }

  lemma AcceptedLast(base: Kvs, ms: seq<Member>, q: nat)
    requires 0 < q <= |ms|
    ensures Accepted(base, ms[..q])
            == Accepted(base, ms[..q - 1]) + if Passes(base, ms[q - 1].cmps) then ms[q - 1].ops else map[]
  {
    assert ms[..q][..q - 1] == ms[..q - 1];
  }

  lemma Regroup(a: map<Key, Op>, b: map<Key, Op>, c: map<Key, Op>)
    ensures (a + b) + c == a + (b + c)
  {
  }

  ghost predicate SameAt(base: Kvs, kvs: Kvs, k: Key) {
    (k in base <==> k in kvs) && (k in base ==> kvs[k] == base[k])
  }

  /** Nothing about this member's file has changed. */
  ghost predicate Untouched(base: Kvs, kvs: Kvs, m: Member) {
    forall k :: InFile(k, m.ino) || (k.LockKey? && k.ino == m.ino) ==> SameAt(base, kvs, k)
  }

  /** The members before `p` are published as far as their comparisons hold, and
      the files of the others are as they were. */
  ghost predicate Done(base: Kvs, kvs: Kvs, ms: seq<Member>, p: nat) {
    && p <= |ms|
    && Values(kvs) == Values(Written(base, Accepted(base, ms[..p]), 0))
    && forall j :: p <= j < |ms| ==> Untouched(base, kvs, ms[j])
  }

  lemma SamePass(base: Kvs, kvs: Kvs, m: Member)
    requires OwnKeys(m) && Untouched(base, kvs, m)
    ensures Passes(kvs, m.cmps) <==> Passes(base, m.cmps)
  {
    forall k | k in m.cmps ensures Meets(kvs, k, m.cmps[k]) == Meets(base, k, m.cmps[k]) {
      assert SameAt(base, kvs, k);
    }
  }

  lemma StaysUntouched(base: Kvs, kvs: Kvs, m: Member, ops: map<Key, Op>, rev: nat)
    requires Untouched(base, kvs, m)
    requires forall k :: k in ops ==> (k.ExtentKey? || k.InodeKey?) && k.ino != m.ino
    ensures Untouched(base, Written(kvs, ops, rev), m)
  {
    var kvs' := Written(kvs, ops, rev);
    forall k | InFile(k, m.ino) || (k.LockKey? && k.ino == m.ino) ensures SameAt(base, kvs', k) {
      assert SameAt(base, kvs, k);
    }
  }

  /** One member on its own. */
  lemma OneDone(base: Kvs, kvs: Kvs, ms: seq<Member>, p: nat, rev: nat)
    requires Separate(ms) && p < |ms| && Done(base, kvs, ms, p)
    ensures Passes(kvs, ms[p].cmps) <==> Passes(base, ms[p].cmps)
    ensures Passes(kvs, ms[p].cmps) ==> Done(base, Written(kvs, ms[p].ops, rev), ms, p + 1)
    ensures !Passes(kvs, ms[p].cmps) ==> Done(base, kvs, ms, p + 1)
  {
    SamePass(base, kvs, ms[p]);
    AcceptedLast(base, ms, p + 1);
    if Passes(kvs, ms[p].cmps) {
      SameValues(base, Accepted(base, ms[..p]), kvs, ms[p].ops, 0, rev);
      forall j | p + 1 <= j < |ms| ensures Untouched(base, Written(kvs, ms[p].ops, rev), ms[j]) {
        StaysUntouched(base, kvs, ms[j], ms[p].ops, rev);
      }
    } else {
      assert Accepted(base, ms[..p + 1]) == Accepted(base, ms[..p]);
    }
  }

  /** Publishing the files one by one is publishing those whose comparisons hold. */
  lemma {:induction false} AloneIsAccepted(base: Kvs, kvs: Kvs, rev: nat, ms: seq<Member>, p: nat)
    requires Separate(ms) && p <= |ms| && Done(base, kvs, ms, p)
    ensures Values(Alone(kvs, rev, ms[p..])) == Values(Written(base, Accepted(base, ms), 0))
    decreases |ms| - p
  {
    if p == |ms| {
      assert ms[..p] == ms;
    } else {
      OneDone(base, kvs, ms, p, rev + 1);
      assert ms[p..][1..] == ms[p + 1..];
      if Passes(kvs, ms[p].cmps) {
        AloneIsAccepted(base, Written(kvs, ms[p].ops, rev + 1), rev + 1, ms, p + 1);
      } else {
        AloneIsAccepted(base, kvs, rev, ms, p + 1);
      }
    }
  }

  /** Keys of the files of the members from `p` to `q`. */
  ghost predicate Among(ms: seq<Member>, p: nat, q: nat, k: Key) {
    !k.GenKey? && exists j :: p <= j < q <= |ms| && ms[j].ino == k.ino
  }

  ghost predicate AllAmong(ms: seq<Member>, p: nat, q: nat, keys: set<Key>) {
    forall k :: k in keys ==> Among(ms, p, q, k)
  }

  lemma AmongMore(ms: seq<Member>, p: nat, q: nat, keys: set<Key>, own: set<Key>)
    requires p <= q < |ms| && AllAmong(ms, p, q, keys) && AllAmong(ms, q, q + 1, own)
    ensures AllAmong(ms, p, q + 1, keys + own)
  {
  }

  lemma AmongOwn(ms: seq<Member>, q: nat)
    requires q < |ms| && OwnKeys(ms[q])
    ensures AllAmong(ms, q, q + 1, ms[q].cmps.Keys) && AllAmong(ms, q, q + 1, ms[q].ops.Keys)
  {
  }

  /** A batch compares only its members' files. */
  lemma {:induction false} BatchCompares(ms: seq<Member>, p: nat, q: nat)
    requires Separate(ms) && p <= q <= |ms|
    ensures AllAmong(ms, p, q, Comparisons(ms[p..q]).Keys)
  {
    if p < q {
      var was, own := Comparisons(ms[p..q - 1]), ms[q - 1].cmps;
      BatchCompares(ms, p, q - 1);
      AmongOwn(ms, q - 1);
      AmongMore(ms, p, q - 1, was.Keys, own.Keys);
      assert Comparisons(ms[p..q]) == was + own by { SliceLast(ms, p, q); }
      assert (was + own).Keys == was.Keys + own.Keys;
    }
  }

  /** ... and writes only those. */
  lemma {:induction false} BatchWrites(ms: seq<Member>, p: nat, q: nat)
    requires Separate(ms) && p <= q <= |ms|
    ensures AllAmong(ms, p, q, Union(ms[p..q]).Keys)
  {
    if p < q {
      var was, own := Union(ms[p..q - 1]), ms[q - 1].ops;
      BatchWrites(ms, p, q - 1);
      AmongOwn(ms, q - 1);
      AmongMore(ms, p, q - 1, was.Keys, own.Keys);
      assert Union(ms[p..q]) == was + own by { SliceLast(ms, p, q); }
      assert (was + own).Keys == was.Keys + own.Keys;
    }
  }

  lemma {:induction false} BatchOps(ms: seq<Member>, p: nat, q: nat)
    requires Separate(ms) && p <= q <= |ms|
    ensures forall k :: k in Union(ms[p..q]) ==> k.ExtentKey? || k.InodeKey?
  {
    if p < q {
      var was, own := Union(ms[p..q - 1]), ms[q - 1].ops;
      BatchOps(ms, p, q - 1);
      assert OwnKeys(ms[q - 1]);
      assert Union(ms[p..q]) == was + own by { SliceLast(ms, p, q); }
      assert (was + own).Keys == was.Keys + own.Keys;
    }
  }

  lemma LastApart(ms: seq<Member>, p: nat, q: nat)
    requires Separate(ms) && p < q <= |ms|
    ensures Comparisons(ms[p..q - 1]).Keys !! ms[q - 1].cmps.Keys
  {
    BatchCompares(ms, p, q - 1);
    assert OwnKeys(ms[q - 1]);
  }

  /** The batch from `p` to `q` passes as one exactly when each member would. */
  lemma {:induction false} BatchPasses(base: Kvs, kvs: Kvs, ms: seq<Member>, p: nat, q: nat)
    requires Separate(ms) && p <= q <= |ms|
    requires forall j :: p <= j < q ==> Untouched(base, kvs, ms[j])
    ensures Passes(kvs, Comparisons(ms[p..q])) <==> forall j :: p <= j < q ==> Passes(base, ms[j].cmps)
  {
    if p < q {
      BatchPasses(base, kvs, ms, p, q - 1);
      SamePass(base, kvs, ms[q - 1]);
      SliceLast(ms, p, q);
      LastApart(ms, p, q);
      PassesBoth(kvs, Comparisons(ms[p..q - 1]), ms[q - 1].cmps);
    }
  }

  lemma PassesBoth(kvs: Kvs, a: map<Key, Cmp>, b: map<Key, Cmp>)
    requires a.Keys !! b.Keys
    ensures Passes(kvs, a + b) <==> Passes(kvs, a) && Passes(kvs, b)
  {
    if Passes(kvs, a + b) {
      forall k | k in a ensures Meets(kvs, k, a[k]) {
        assert k in a + b && (a + b)[k] == a[k];
      }
      forall k | k in b ensures Meets(kvs, k, b[k]) {
        assert k in a + b && (a + b)[k] == b[k];
      }
    }
  }

  lemma {:induction false} AcceptedAll(base: Kvs, ms: seq<Member>, p: nat, q: nat)
    requires p <= q <= |ms| && forall j :: p <= j < q ==> Passes(base, ms[j].cmps)
    ensures Accepted(base, ms[..q]) == Accepted(base, ms[..p]) + Union(ms[p..q])
  {
    var was := Accepted(base, ms[..p]);
    if p < q {
      var more, last := Union(ms[p..q - 1]), ms[q - 1].ops;
      AcceptedAll(base, ms, p, q - 1);
      assert Accepted(base, ms[..q]) == (was + more) + last by { AcceptedLast(base, ms, q); }
      assert Union(ms[p..q]) == more + last by { SliceLast(ms, p, q); }
      Regroup(was, more, last);
    } else {
      assert ms[p..q] == [];
      assert was + map[] == was;
    }
  }

  lemma OthersApart(ms: seq<Member>, p: nat, q: nat, j: nat)
    requires Separate(ms) && p <= q <= j < |ms|
    ensures forall k :: k in Union(ms[p..q]) ==> (k.ExtentKey? || k.InodeKey?) && k.ino != ms[j].ino
  {
    BatchWrites(ms, p, q);
    BatchOps(ms, p, q);
    forall k | k in Union(ms[p..q]) ensures k.ino != ms[j].ino {
      assert k in Union(ms[p..q]).Keys;
    }
  }

  /** A whole batch in one transaction. */
  lemma BatchDone(base: Kvs, kvs: Kvs, ms: seq<Member>, p: nat, q: nat, rev: nat)
    requires Separate(ms) && p <= q <= |ms| && Done(base, kvs, ms, p)
    requires forall j :: p <= j < q ==> Passes(base, ms[j].cmps)
    ensures Done(base, Written(kvs, Union(ms[p..q]), rev), ms, q)
  {
    AcceptedAll(base, ms, p, q);
    SameValues(base, Accepted(base, ms[..p]), kvs, Union(ms[p..q]), 0, rev);
    forall j | q <= j < |ms| ensures Untouched(base, Written(kvs, Union(ms[p..q]), rev), ms[j]) {
      OthersApart(ms, p, q, j);
      StaysUntouched(base, kvs, ms[j], Union(ms[p..q]), rev);
    }
  }

  /** One more proposal stays inside the cap; a batch of one always fits. */
  predicate Fits(members: nat, cmps: nat, ops: nat, m: Member) {
    members == 0 || (ops + |m.ops| <= MAX_TXN_OPS && cmps + |m.cmps| <= MAX_TXN_OPS)
  }

  function OpCount(ms: seq<Member>, p: nat, q: nat): nat
    requires p <= q <= |ms|
  {
    if p == q then 0 else OpCount(ms, p, q - 1) + |ms[q - 1].ops|
  }

  function CmpCount(ms: seq<Member>, p: nat, q: nat): nat
    requires p <= q <= |ms|
  {
    if p == q then 0 else CmpCount(ms, p, q - 1) + |ms[q - 1].cmps|
  }

  /** The members from `p` to `q` make one transaction: inside the cap unless there
      is only one, and with no room for the next. */
  ghost predicate IsBatch(ms: seq<Member>, p: nat, q: nat) {
    && p < q <= |ms|
    && (q > p + 1 ==> OpCount(ms, p, q) <= MAX_TXN_OPS && CmpCount(ms, p, q) <= MAX_TXN_OPS)
    && (q < |ms| ==> OpCount(ms, p, q + 1) > MAX_TXN_OPS || CmpCount(ms, p, q + 1) > MAX_TXN_OPS)
  }

  /** The members up to `end`, cut into batches. */
  ghost predicate Batches(ms: seq<Member>, cuts: seq<nat>, end: nat) {
    && |cuts| > 0 && cuts[0] == 0 && cuts[|cuts| - 1] == end
    && forall i :: 0 <= i < |cuts| - 1 ==> BatchAt(ms, cuts, i)
  }

  ghost predicate BatchAt(ms: seq<Member>, cuts: seq<nat>, i: nat)
    requires i + 1 < |cuts|
  {
    IsBatch(ms, cuts[i], cuts[i + 1])
  }

  /** The batch being filled: where it starts and how much it has. */
  datatype Open = Open(p: nat, cmps: nat, ops: nat)

  /** The open batch once the member at `i` has joined it or started the next. */
  function Admitted(o: Open, i: nat, m: Member): Open
    requires o.p <= i
  {
    if Fits(i - o.p, o.cmps, o.ops, m) then Open(o.p, o.cmps + |m.cmps|, o.ops + |m.ops|) else Open(i, |m.cmps|, |m.ops|)
  }

  function OpenAt(ms: seq<Member>, i: nat): (o: Open)
    requires i <= |ms|
    ensures o.p <= i
  {
    if i == 0 then Open(0, 0, 0) else Admitted(OpenAt(ms, i - 1), i - 1, ms[i - 1])
  }

  /** Where the batches sent before the member at `i` joins end. */
  function CutsOf(ms: seq<Member>, i: nat): seq<nat>
    requires i <= |ms|
  {
    if i == 0 then [0] else CutsWith(CutsOf(ms, i - 1), OpenAt(ms, i - 1), i - 1, ms[i - 1])
  }

  function CutsWith(cuts: seq<nat>, o: Open, i: nat, m: Member): seq<nat>
    requires o.p <= i
  {
    if Fits(i - o.p, o.cmps, o.ops, m) then cuts else cuts + [i]
  }

  lemma {:induction false} CutsAt(ms: seq<Member>, i: nat)
    requires i <= |ms|
    ensures var o := OpenAt(ms, i); Filling(ms, CutsOf(ms, i), o.p, i, o.cmps, o.ops)
  {
    if i > 0 {
      var o, cuts := OpenAt(ms, i - 1), CutsOf(ms, i - 1);
      CutsAt(ms, i - 1);
      if Fits(i - 1 - o.p, o.cmps, o.ops, ms[i - 1]) {
        Fill(ms, cuts, o.p, i - 1, o.cmps, o.ops);
      } else {
        Cut(ms, cuts, o.p, i - 1, o.cmps, o.ops);
        Fill(ms, cuts + [i - 1], i - 1, i - 1, 0, 0);
      }
    }
  }

  lemma AllCuts(ms: seq<Member>)
    ensures var o := OpenAt(ms, |ms|);
            Batches(ms, if o.p == |ms| then CutsOf(ms, |ms|) else CutsOf(ms, |ms|) + [|ms|], |ms|)
  {
    var o := OpenAt(ms, |ms|);
    CutsAt(ms, |ms|);
    if o.p < |ms| {
      Cut(ms, CutsOf(ms, |ms|), o.p, |ms|, o.cmps, o.ops);
    }
  }

  /** The batch from `p` is being filled and has the members before `i`. */
  ghost predicate Filling(ms: seq<Member>, cuts: seq<nat>, p: nat, i: nat, cmps: nat, ops: nat) {
    && p <= i <= |ms| && Batches(ms, cuts, p) && (p == i ==> i == 0)
    && ops == OpCount(ms, p, i) && cmps == CmpCount(ms, p, i)
    && (i > p + 1 ==> ops <= MAX_TXN_OPS && cmps <= MAX_TXN_OPS)
  }

  lemma Cut(ms: seq<Member>, cuts: seq<nat>, p: nat, i: nat, cmps: nat, ops: nat)
    requires Filling(ms, cuts, p, i, cmps, ops) && p < i && (i < |ms| ==> !Fits(i - p, cmps, ops, ms[i]))
    ensures Batches(ms, cuts + [i], i)
  {
    var cuts' := cuts + [i];
    forall j | 0 <= j < |cuts'| - 1 ensures BatchAt(ms, cuts', j) {
      if j < |cuts| - 1 {
        assert BatchAt(ms, cuts, j);
      } else {
        assert IsBatch(ms, p, i);
      }
    }
  }

  lemma Fill(ms: seq<Member>, cuts: seq<nat>, p: nat, i: nat, cmps: nat, ops: nat)
    requires p <= i < |ms| && Batches(ms, cuts, p) && ops == OpCount(ms, p, i) && cmps == CmpCount(ms, p, i)
    requires Fits(i - p, cmps, ops, ms[i])
    ensures Filling(ms, cuts, p, i + 1, cmps + |ms[i].cmps|, ops + |ms[i].ops|)
  {
  }

  /** A transaction of members has no more operations than they have together. */
  lemma {:induction false} FewOps(ms: seq<Member>, p: nat, q: nat)
    requires p <= q <= |ms|
    ensures |Union(ms[p..q])| <= OpCount(ms, p, q)
  {
    if p < q {
      FewOps(ms, p, q - 1);
      SliceLast(ms, p, q);
      JoinIsSmall(Union(ms[p..q - 1]), ms[q - 1].ops, Union(ms[p..q]), OpCount(ms, p, q - 1));
    } else {
      assert ms[p..q] == [];
    }
  }

  lemma {:induction false} FewCmps(ms: seq<Member>, p: nat, q: nat)
    requires p <= q <= |ms|
    ensures |Comparisons(ms[p..q])| <= CmpCount(ms, p, q)
  {
    if p < q {
      FewCmps(ms, p, q - 1);
      SliceLast(ms, p, q);
      JoinIsSmall(Comparisons(ms[p..q - 1]), ms[q - 1].cmps, Comparisons(ms[p..q]), CmpCount(ms, p, q - 1));
    } else {
      assert ms[p..q] == [];
    }
  }

  /** So a batch of several members is a transaction inside the cap. */
  lemma BatchIsSmall(ms: seq<Member>, p: nat, q: nat)
    requires IsBatch(ms, p, q) && q > p + 1
    ensures |Union(ms[p..q])| <= MAX_TXN_OPS && |Comparisons(ms[p..q])| <= MAX_TXN_OPS
  {
    FewOps(ms, p, q);
    FewCmps(ms, p, q);
  }

  lemma JoinIsSmall<T>(a: map<Key, T>, b: map<Key, T>, c: map<Key, T>, n: nat)
    requires c == a + b && |a| <= n
    ensures |c| <= n + |b|
  {
    assert c.Keys == a.Keys + b.Keys;
    assert |a| == |a.Keys| && |b| == |b.Keys| && |c| == |c.Keys|;
  }

  /** Which of the members from `p` were published. */
  ghost predicate Reports(base: Kvs, ms: seq<Member>, p: nat, done: seq<bool>) {
    p + |done| <= |ms| && forall j :: 0 <= j < |done| ==> (done[j] <==> Passes(base, ms[p + j].cmps))
  }

  lemma ReportsJoin(base: Kvs, ms: seq<Member>, p: nat, a: seq<bool>, b: seq<bool>)
    requires Reports(base, ms, p, a) && Reports(base, ms, p + |a|, b)
    ensures Reports(base, ms, p, a + b)
  {
    forall j | 0 <= j < |a + b| ensures (a + b)[j] <==> Passes(base, ms[p + j].cmps) {
      assert j >= |a| ==> (a + b)[j] == b[j - |a|] && p + j == p + |a| + (j - |a|);
    }
  }

  method FlushOne(kvs: Kvs, rev: nat, ms: seq<Member>, p: nat, ghost base: Kvs)
    returns (kvs': Kvs, rev': nat, ok: bool)
    requires Separate(ms) && p < |ms| && Done(base, kvs, ms, p)
    ensures Done(base, kvs', ms, p + 1) && (ok <==> Passes(base, ms[p].cmps))
  {
    OneDone(base, kvs, ms, p, rev + 1);
    ok := Passes(kvs, ms[p].cmps);
    if ok {
      kvs', rev' := Written(kvs, ms[p].ops, rev + 1), rev + 1;
    } else {
      kvs', rev' := kvs, rev;
    }
  }

  /** The state of a sweep: the store, its revision, what was published, and where
      the batches sent so far end. */
  datatype Sweep = Sweep(kvs: Kvs, rev: nat, done: seq<bool>, cuts: seq<nat>)

  ghost predicate Swept(base: Kvs, ms: seq<Member>, p: nat, i: nat, w: Sweep) {
    p <= i && Done(base, w.kvs, ms, i) && |w.done| == i - p && Reports(base, ms, p, w.done)
  }

  method SweepOne(ms: seq<Member>, p: nat, i: nat, w: Sweep, ghost base: Kvs) returns (w': Sweep)
    requires Separate(ms) && i < |ms| && Swept(base, ms, p, i, w)
    ensures Swept(base, ms, p, i + 1, w')
  {
    var kvs', rev', ok := FlushOne(w.kvs, w.rev, ms, i, base);
    ReportsJoin(base, ms, p, w.done, [ok]);
    w' := Sweep(kvs', rev', w.done + [ok], w.cuts);
  }

  /** Each member from `p` to `q` in a transaction of its own. */
  method FlushEach(ms: seq<Member>, p: nat, q: nat, start: Sweep, ghost base: Kvs) returns (w: Sweep)
    requires Separate(ms) && p <= q <= |ms| && Swept(base, ms, p, p, start)
    ensures Swept(base, ms, p, q, w)
  {
    w := start;
    for i := p to q
      invariant Swept(base, ms, p, i, w)
    {
      w := SweepOne(ms, p, i, w, base);
    }
  }

  /** Commits the members from `p` to `q` in one transaction, or, when that is
      rejected, each in its own. */
  method CommitFlushBatch(kvs: Kvs, rev: nat, ms: seq<Member>, p: nat, q: nat, ghost base: Kvs)
    returns (kvs': Kvs, rev': nat, done: seq<bool>)
    requires Separate(ms) && p <= q <= |ms| && Done(base, kvs, ms, p)
    ensures Done(base, kvs', ms, q) && |done| == q - p && Reports(base, ms, p, done)
  {
    BatchPasses(base, kvs, ms, p, q);
    if Passes(kvs, Comparisons(ms[p..q])) {
      BatchDone(base, kvs, ms, p, q, rev + 1);
      kvs', rev', done := Written(kvs, Union(ms[p..q]), rev + 1), rev + 1, seq(q - p, _ => true);
    } else {
      var w := FlushEach(ms, p, q, Sweep(kvs, rev, [], []), base);
      kvs', rev', done := w.kvs, w.rev, w.done;
    }
  }

  /** Commits the members from `p` to `q` and adds their reports. */
  method CommitInto(ms: seq<Member>, p: nat, q: nat, w: Sweep, ghost base: Kvs) returns (w': Sweep)
    requires Separate(ms) && p <= q <= |ms| && Swept(base, ms, 0, p, w)
    ensures Swept(base, ms, 0, q, w') && w'.cuts == if p == q then w.cuts else w.cuts + [q]
  {
    if p == q {
      return w;
    }
    var kvs', rev', more := CommitFlushBatch(w.kvs, w.rev, ms, p, q, base);
    ReportsJoin(base, ms, 0, w.done, more);
    w' := Sweep(kvs', rev', w.done + more, w.cuts + [q]);
  }

  /** One more member joins the open batch, which is committed first if there is
      no room. */
  method Admit(ms: seq<Member>, i: nat, w: Sweep, o: Open, ghost base: Kvs) returns (w': Sweep, o': Open)
    requires Separate(ms) && i < |ms| && o.p <= i && Swept(base, ms, 0, o.p, w)
    ensures Swept(base, ms, 0, o'.p, w') && o' == Admitted(o, i, ms[i])
    ensures w'.cuts == CutsWith(w.cuts, o, i, ms[i])
  {
    w', o' := w, o;
    if !Fits(i - o.p, o.cmps, o.ops, ms[i]) {
      w' := CommitInto(ms, o.p, i, w, base);
      o' := Open(i, 0, 0);
    }
    o' := Open(o'.p, o'.cmps + |ms[i].cmps|, o'.ops + |ms[i].ops|);
  }

  /** The sweep over many files leaves the keys and values that publishing each
      file alone in the same order leaves, and publishes the same files. Its
      transactions end at `cuts`: each but the last is as long as the cap allows. */
  method FlushEntries(kvs: Kvs, rev: nat, ms: seq<Member>) returns (kvs': Kvs, rev': nat, done: seq<bool>, cuts: seq<nat>)
    requires Separate(ms)
    ensures Values(kvs') == Values(Alone(kvs, rev, ms))
    ensures |done| == |ms| && Reports(kvs, ms, 0, done)
    ensures Batches(ms, cuts, |ms|)
  {
    var w, o := AdmitAll(kvs, rev, ms);
    w := CommitInto(ms, o.p, |ms|, w, kvs);
    AllCuts(ms);
    AloneIsDone(kvs, w.kvs, rev, ms);
    return w.kvs, w.rev, w.done, w.cuts;
  }

  method AdmitAll(kvs: Kvs, rev: nat, ms: seq<Member>) returns (w: Sweep, o: Open)
    requires Separate(ms)
    ensures Swept(kvs, ms, 0, o.p, w) && o == OpenAt(ms, |ms|) && w.cuts == CutsOf(ms, |ms|)
  {
    w, o := Sweep(kvs, rev, [], [0]), Open(0, 0, 0);
    NothingDone(kvs, ms);
    for i := 0 to |ms|
      invariant Swept(kvs, ms, 0, o.p, w)
      invariant o == OpenAt(ms, i)
      invariant w.cuts == CutsOf(ms, i)
    {
      w, o := Admit(ms, i, w, o, kvs);
    }
  }

  lemma NothingDone(kvs: Kvs, ms: seq<Member>)
    ensures Done(kvs, kvs, ms, 0)
  {
    assert ms[..0] == [] && Written(kvs, map[], 0) == kvs;
  }

  lemma AloneIsDone(base: Kvs, kvs: Kvs, rev: nat, ms: seq<Member>)
    requires Separate(ms) && Done(base, kvs, ms, |ms|)
    ensures Values(kvs) == Values(Alone(base, rev, ms))
  {
    NothingDone(base, ms);
    AloneIsAccepted(base, base, rev, ms, 0);
    assert ms[0..] == ms && ms[..|ms|] == ms;
  }
}
