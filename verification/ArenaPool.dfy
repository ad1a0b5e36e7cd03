/** The cluster-wide pool of arenas: ids drawn from a counter or claimed from
    the free list, recorded as owned, and released (pkg/metadata/arena.go,
    pkg/metadata/alloc.go, pkg/arena/allocator.go AcquireArena and
    ReleaseEmptyArenas). */
module ArenaPool {
  import opened Common

  /** One node's durable claim on one arena. */
  datatype Record = Record(node: Node, id: nat)

  /** What etcd holds: ownership records, the free list, and the counter. */
  datatype Pool = Pool(owned: set<Record>, free: set<nat>, counter: nat)

  /** etcd, and for each node the ids on their way to it, the arenas it
      allocates from, and those it has detached to release them. */
  datatype Cluster = Cluster(pool: Pool, inflight: set<Record>, held: set<Record>, releasing: set<Record>, down: set<Node>)

  datatype Action =
    | Draw(n: Node, seen: nat, lost: bool)
    | Claim(n: Node, id: nat, lost: bool)
    | TakeOwnership(n: Node, id: nat, lost: bool)
    | AbandonId(n: Node, id: nat)
    | Detach(n: Node, id: nat)
    | ReleaseId(n: Node, id: nat)
    | ReleaseErrs(n: Node, id: nat, landed: bool)
    | PeerRelease(n: Node, id: nat)
    | Crash(n: Node)
    | Restart(n: Node)

  function Of(records: set<Record>, n: Node): set<Record> {
    set r | r in records && r.node == n
  }

  /** Moves an arena from owned to free, if its record is there. */
  function Released(p: Pool, r: Record): Pool {
    if r in p.owned then p.(owned := p.owned - {r}, free := p.free + {r.id}) else p
  }

  ghost predicate Next(s: Cluster, a: Action, s': Cluster) {
    match a
    // The counter is read, then compared and raised in one transaction.
    case Draw(n, seen, lost) =>
      && n !in s.down && s.pool.counter == seen
      && s' == s.(pool := s.pool.(counter := seen + 1), inflight := if lost then s.inflight else s.inflight + {Record(n, seen)})
    // Deleting the free key is the claim.
    case Claim(n, id, lost) =>
      && n !in s.down && id in s.pool.free
      && s' == s.(pool := s.pool.(free := s.pool.free - {id}),
                  inflight := if lost then s.inflight else s.inflight + {Record(n, id)})
    // Refused only by this node's own record for the id.
    case TakeOwnership(n, id, lost) =>
      && Record(n, id) in s.inflight && Record(n, id) !in s.pool.owned
      && s' == s.(pool := s.pool.(owned := s.pool.owned + {Record(n, id)}), inflight := s.inflight - {Record(n, id)},
                  held := if lost then s.held else s.held + {Record(n, id)})
    case AbandonId(n, id) =>
      s' == s.(inflight := s.inflight - {Record(n, id)})
    case Detach(n, id) =>
      && Record(n, id) in s.held
      && s' == s.(held := s.held - {Record(n, id)}, releasing := s.releasing + {Record(n, id)})
    case ReleaseId(n, id) =>
      && Record(n, id) in s.releasing && Record(n, id) in s.pool.owned
      && s' == s.(pool := Released(s.pool, Record(n, id)), releasing := s.releasing - {Record(n, id)})
    // The node saw an error, which does not tell whether the release landed, and
    // attaches the arena again.
    case ReleaseErrs(n, id, landed) =>
      && Record(n, id) in s.releasing
      && s' == s.(pool := if landed then Released(s.pool, Record(n, id)) else s.pool,
                  releasing := s.releasing - {Record(n, id)}, held := s.held + {Record(n, id)})
    // A fenced or departed node's arenas are released on its behalf.
    case PeerRelease(n, id) =>
      && n in s.down
      && s' == s.(pool := Released(s.pool, Record(n, id)))
    case Crash(n) =>
      s' == s.(inflight := s.inflight - Of(s.inflight, n), held := s.held - Of(s.held, n),
               releasing := s.releasing - Of(s.releasing, n), down := s.down + {n})
    // The node holds again what its records say.
    case Restart(n) =>
      && n in s.down
      && s' == s.(held := s.held + Of(s.pool.owned, n), down := s.down - {n})
  }

  /** Each id is owned by or in flight to at most one node, is never both owned
      and free, and none is beyond the counter. */
  ghost predicate OneHand(s: Cluster) {
    && (forall r, q :: r in s.pool.owned + s.inflight && q in s.pool.owned + s.inflight && r.id == q.id ==> r == q)
    && s.pool.owned !! s.inflight
    && (forall r :: r in s.pool.owned + s.inflight ==> r.id !in s.pool.free && r.id < s.pool.counter)
    && (forall id :: id in s.pool.free ==> id < s.pool.counter)
  }

  ghost predicate Init(s: Cluster) {
    s == Cluster(Pool({}, {}, s.pool.counter), {}, {}, {}, {})
  }

  lemma OneHandKept(s: Cluster, a: Action, s': Cluster)
    requires OneHand(s) && Next(s, a, s')
    ensures OneHand(s')
  {
  }

  ghost predicate StepAt(run: seq<Cluster>, acts: seq<Action>, i: nat)
    requires i < |acts| && i + 1 < |run|
  {
    Next(run[i], acts[i], run[i + 1])
  }

  ghost predicate IsRun(run: seq<Cluster>, acts: seq<Action>) {
    && |run| == |acts| + 1 && Init(run[0])
    && forall i :: 0 <= i < |acts| ==> StepAt(run, acts, i)
  }

  /** Over every interleaving of draws, claims, records, releases, crashes and
      lost replies. */
  lemma {:induction false} OneHandAlways(run: seq<Cluster>, acts: seq<Action>, t: nat)
    requires IsRun(run, acts) && t < |run|
    ensures OneHand(run[t])
  {
    if t > 0 {
      OneHandAlways(run, acts, t - 1);
      assert StepAt(run, acts, t - 1);
      OneHandKept(run[t - 1], acts[t - 1], run[t]);
    }
  }

  /** What a node allocates from, or is about to release, is on record as its
      own, and a node that is down does neither. */
  ghost predicate HeldIsOwned(s: Cluster) {
    && s.held + s.releasing <= s.pool.owned && s.held !! s.releasing
    && (forall r :: r in s.held + s.releasing + s.inflight ==> r.node !in s.down)
  }

  /** What the node would find if it read its own record again after an error,
      before it attaches the arena: the record is still there. */
  predicate StillRecorded(a: Action, s': Cluster) {
    a.ReleaseErrs? ==> Record(a.n, a.id) in s'.pool.owned
  }

  /** An arena given up is out of every hand once the release has landed. */
  lemma ReleasedIsNobodys(s: Cluster, r: Record)
    requires OneHand(s) && r in s.pool.owned
    ensures var p := Released(s.pool, r);
            r.id in p.free && forall q :: q in p.owned + s.inflight ==> q.id != r.id
  {
    forall q | q in Released(s.pool, r).owned + s.inflight ensures q.id != r.id {
      assert q in s.pool.owned + s.inflight && q != r;
    }
  }

  lemma OthersKeepHeld(s: Cluster, a: Action, s': Cluster)
    requires OneHand(s) && HeldIsOwned(s) && Next(s, a, s') && !a.ReleaseErrs?
    ensures HeldIsOwned(s')
  {
  }

  /** An action keeps every node allocating only from arenas on record as its own
      exactly when it is no failed release, or one whose record is still there. */
  lemma HeldKeptIff(s: Cluster, a: Action, s': Cluster)
    requires OneHand(s) && HeldIsOwned(s) && Next(s, a, s')
    ensures HeldIsOwned(s') <==> StillRecorded(a, s')
    ensures a.ReleaseErrs? && !StillRecorded(a, s') ==> a.id in s'.pool.free
  {
    if a.ReleaseErrs? {
      ReleasedIsNobodys(s, Record(a.n, a.id));
      assert Record(a.n, a.id) in s'.held;
    } else {
      OthersKeepHeld(s, a, s');
    }
  }

  lemma {:induction false} HeldIsOwnedAlways(run: seq<Cluster>, acts: seq<Action>, t: nat)
    requires IsRun(run, acts) && t < |run|
    requires forall i :: 0 <= i < t ==> StillRecorded(acts[i], run[i + 1])
    ensures HeldIsOwned(run[t])
  {
    if t > 0 {
      HeldIsOwnedAlways(run, acts, t - 1);
      OneHandAlways(run, acts, t - 1);
      assert StepAt(run, acts, t - 1);
      HeldKeptIff(run[t - 1], acts[t - 1], run[t]);
    }
  }

  /** While every arena attached again after an error is still on record, no
      arena is allocated from by two nodes. */
  lemma NoSharedArena(run: seq<Cluster>, acts: seq<Action>, t: nat, r: Record, q: Record)
    requires IsRun(run, acts) && t < |run| && r in run[t].held && q in run[t].held && r.id == q.id
    requires forall i :: 0 <= i < t ==> StillRecorded(acts[i], run[i + 1])
    ensures r == q
  {
    OneHandAlways(run, acts, t);
    HeldIsOwnedAlways(run, acts, t);
  }

  /** With one that is not, two nodes end up allocating from the same arena. */
  lemma LostReleaseSharesArena() returns (run: seq<Cluster>, acts: seq<Action>)
    ensures IsRun(run, acts)
    ensures Record(1, 0) in run[|acts|].held && Record(2, 0) in run[|acts|].held
  {
    var a, b := Record(1, 0), Record(2, 0);
    acts := [Draw(1, 0, false), TakeOwnership(1, 0, false), Detach(1, 0), ReleaseErrs(1, 0, true), Claim(2, 0, false), TakeOwnership(2, 0, false)];
    run := [Cluster(Pool({}, {}, 0), {}, {}, {}, {}),
            Cluster(Pool({}, {}, 1), {a}, {}, {}, {}),
            Cluster(Pool({a}, {}, 1), {}, {a}, {}, {}),
            Cluster(Pool({a}, {}, 1), {}, {}, {a}, {}),
            Cluster(Pool({}, {0}, 1), {}, {a}, {}, {}),
            Cluster(Pool({}, {}, 1), {b}, {a}, {}, {}),
            Cluster(Pool({b}, {}, 1), {}, {a, b}, {}, {})];
    forall i | 0 <= i < |acts| ensures StepAt(run, acts, i) {
      if i == 0 {
      } else if i == 1 {
      } else if i == 2 {
      } else if i == 3 {
      } else if i == 4 {
      }
    }
  }

  // --- No arena is lost ----------------------------------------------------------------

  /** An id drawn from the counter is in somebody's hands or on the free list. */
  ghost predicate Accounted(s: Cluster, first: nat) {
    forall id :: first <= id < s.pool.counter ==> id in s.pool.free || InHands(s, id)
  }

  ghost predicate InHands(s: Cluster, id: nat) {
    exists r :: r in s.pool.owned + s.inflight && r.id == id
  }

  /** The action drops an id on its way to a node: its reply is lost, it is given
      up, or the node is gone. */
  ghost predicate Leaks(s: Cluster, a: Action) {
    match a
    case Draw(_, _, lost) => lost
    case Claim(_, _, lost) => lost
    case AbandonId(n, id) => Record(n, id) in s.inflight
    case Crash(n) => exists r :: r in s.inflight && r.node == n
    case _ => false
  }

  /** Every id in sight was drawn. */
  ghost predicate Drawn(s: Cluster, first: nat) {
    && first <= s.pool.counter && (forall id :: id in s.pool.free ==> id >= first)
    && (forall r :: r in s.pool.owned + s.inflight ==> r.id >= first)
  }

  /** An action keeps every arena accounted for exactly when it drops no id on its
      way to a node; one that is recorded or free is never lost. */
  lemma AccountedKeptIff(s: Cluster, a: Action, s': Cluster, first: nat)
    requires OneHand(s) && Accounted(s, first) && Drawn(s, first) && Next(s, a, s')
    ensures Accounted(s', first) <==> !Leaks(s, a)
  {
    if Leaks(s, a) {
      var id := LeakedId(s, a);
      assert first <= id < s'.pool.counter && id !in s'.pool.free && !InHands(s', id);
    } else {
      forall id | first <= id < s'.pool.counter ensures id in s'.pool.free || InHands(s', id) {
        StillAccounted(s, a, s', id);
      }
    }
  }

  lemma DrawnKept(s: Cluster, a: Action, s': Cluster, first: nat)
    requires Drawn(s, first) && Next(s, a, s')
    ensures Drawn(s', first)
  {
  }

  /** Over every run in which no id is dropped on its way, each arena ever drawn is
      recorded for a node, on its way to one, or free. */
  lemma {:induction false} NoArenaIsLost(run: seq<Cluster>, acts: seq<Action>, t: nat)
    requires IsRun(run, acts) && t < |run| && forall i :: 0 <= i < t ==> !Leaks(run[i], acts[i])
    ensures Accounted(run[t], run[0].pool.counter) && Drawn(run[t], run[0].pool.counter)
  {
    if t > 0 {
      NoArenaIsLost(run, acts, t - 1);
      OneHandAlways(run, acts, t - 1);
      assert StepAt(run, acts, t - 1);
      DrawnKept(run[t - 1], acts[t - 1], run[t], run[0].pool.counter);
      AccountedKeptIff(run[t - 1], acts[t - 1], run[t], run[0].pool.counter);
    }
  }

  /** What each action does with the arena it names. */
  lemma ActionDoes(s: Cluster, a: Action, s': Cluster)
    requires Next(s, a, s')
    ensures a.Draw? ==> s'.pool.counter == s.pool.counter + 1 && (a.lost || Record(a.n, s.pool.counter) in s'.inflight)
    ensures a.Claim? ==> a.id in s.pool.free && a.id !in s'.pool.free && (a.lost || Record(a.n, a.id) in s'.inflight)
    ensures a.TakeOwnership? ==> Record(a.n, a.id) in s'.pool.owned - s'.inflight && (a.lost || Record(a.n, a.id) in s'.held)
    ensures a.Detach? ==> Record(a.n, a.id) in s'.releasing - s'.held
    ensures a.ReleaseId? ==> Record(a.n, a.id) !in s'.pool.owned + s'.releasing && a.id in s'.pool.free
    ensures a.ReleaseErrs? ==> Record(a.n, a.id) in s'.held - s'.releasing
    ensures a.PeerRelease? ==> Record(a.n, a.id) !in s'.pool.owned && (Record(a.n, a.id) in s.pool.owned ==> a.id in s'.pool.free)
    ensures a.Crash? ==> a.n in s'.down && forall r :: r in s'.held + s'.inflight + s'.releasing ==> r.node != a.n
    ensures a.Restart? ==> a.n !in s'.down && forall r :: r in s'.pool.owned && r.node == a.n ==> r in s'.held
  {
  }

  ghost function LeakedId(s: Cluster, a: Action): nat
    requires Leaks(s, a)
  {
    match a
    case Draw(_, seen, _) => seen
    case Claim(_, id, _) => id
    case AbandonId(_, id) => id
    case Crash(n) => var r :| r in s.inflight && r.node == n; r.id
  }

  lemma StillAccounted(s: Cluster, a: Action, s': Cluster, id: nat)
    requires Next(s, a, s') && !Leaks(s, a) && id < s'.pool.counter
    requires id < s.pool.counter ==> id in s.pool.free || InHands(s, id)
    ensures id in s'.pool.free || InHands(s', id)
  {
    if id == s.pool.counter && a.Draw? {
      assert Record(a.n, id) in s'.inflight;
    } else if InHands(s, id) {
      var r :| r in s.pool.owned + s.inflight && r.id == id;
      assert r in s'.pool.owned + s'.inflight || id in s'.pool.free;
    } else if a.Claim? && a.id == id {
      assert Record(a.n, id) in s'.inflight;
    }
  }

  // --- The transactions as the store runs them ------------------------------------

  function Records(n: Node, ids: seq<nat>): set<Record> {
    set id | id in ids :: Record(n, id)
  }

  class Store {
    var pool: Pool

    /** Returns one arena to the free pool; reports whether this call did. */
    method ReleaseArenaID(n: Node, id: nat) returns (won: bool)
      modifies this
      ensures pool == Released(old(pool), Record(n, id)) && (won <==> Record(n, id) in old(pool).owned)
    {
      won := Record(n, id) in pool.owned;
      if won {
        pool := pool.(owned := pool.owned - {Record(n, id)}, free := pool.free + {id});
      }
    }

    /** Returns every listed arena of a node, one transaction each, so that one
        released meanwhile does not stop the others. */
    method ReleaseArena(n: Node, listed: seq<nat>) returns (released: seq<nat>)
      modifies this
      ensures pool.counter == old(pool).counter && pool.owned == old(pool).owned - Records(n, listed)
      ensures forall id :: id in pool.free <==> id in old(pool).free || (id in listed && Record(n, id) in old(pool).owned)
      ensures forall id :: id in released <==> id in listed && Record(n, id) in old(pool).owned
    {
      released := [];
      for i := 0 to |listed|
        invariant pool.counter == old(pool).counter && pool.owned == old(pool).owned - Records(n, listed[..i])
        invariant forall id :: id in pool.free <==> id in old(pool).free || (id in listed[..i] && Record(n, id) in old(pool).owned)
        invariant forall id :: id in released <==> id in listed[..i] && Record(n, id) in old(pool).owned
      {
        assert listed[..i + 1] == listed[..i] + [listed[i]];
        var won := ReleaseArenaID(n, listed[i]);
        if won {
          released := released + [listed[i]];
        }
      }
      assert listed[..|listed|] == listed;
    }

    /** Takes the first listed arena that is still free, if any is. */
    method ClaimFreeArena(listed: seq<nat>) returns (r: Option<nat>)
      modifies this
      ensures r.Some? ==> r.value in listed && r.value in old(pool).free && pool == old(pool).(free := old(pool).free - {r.value})
      ensures r.None? ==> pool == old(pool) && forall id :: id in listed ==> id !in pool.free
    {
      for i := 0 to |listed|
        invariant pool == old(pool) && forall j :: 0 <= j < i ==> listed[j] !in pool.free
      {
        if listed[i] in pool.free {
          pool := pool.(free := pool.free - {listed[i]});
          return Some(listed[i]);
        }
      }
      return None;
    }

    /** Draws `count` numbers at or above `floor`. Attempt `a` read `seen[a]`, and
        commits only if that is still the counter. */
    method ReserveCounter(floor: nat, count: nat, seen: seq<nat>) returns (r: Option<nat>)
      requires count > 0
      modifies this
      ensures r.Some? ==> r.value == Max(old(pool).counter, floor) && pool == old(pool).(counter := r.value + count)
      ensures r.None? <==> old(pool).counter !in seen
      ensures r.None? ==> pool == old(pool)
    {
      for a := 0 to |seen|
        invariant pool == old(pool) && forall b :: 0 <= b < a ==> seen[b] != pool.counter
      {
        if seen[a] == pool.counter {
          var reserved := Max(seen[a], floor);
          pool := pool.(counter := reserved + count);
          return Some(reserved);
        }
      }
      return None;
    }
  }
}
