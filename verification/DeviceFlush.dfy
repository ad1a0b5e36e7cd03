/** Putting buffered payload on the device: sorted, adjacent runs merged, the
    merged groups written in any order (internal/ipc/delegate.go flushData). */
module DeviceFlush {
  import opened Common
  import opened Extents

  /** The device once the runs are on it. */
  function Through(dev: Device, ram: seq<BufferedRun>): Device {
    (a: nat) => Byte(dev, ram, a)
  }

  /** Later runs lie under earlier ones. */
  lemma {:induction false} ByteOfJoin(dev: Device, front: seq<BufferedRun>, back: seq<BufferedRun>, a: nat)
    ensures Byte(dev, front + back, a) == Byte(Through(dev, back), front, a)
  {
    if front == [] {
      assert front + back == back;
    } else {
      assert (front + back)[1..] == front[1..] + back;
      ByteOfJoin(dev, front[1..], back, a);
    }
  }

  /** The buffered byte at an address, if a run holds it. */
  function Look(runs: seq<BufferedRun>, a: nat): Option<bv8> {
    if runs == [] then None
    else if runs[0].Has(a) then Some(runs[0].buf[a - runs[0].diskOff])
    else Look(runs[1..], a)
  }

  lemma {:induction false} ByteIsLook(dev: Device, runs: seq<BufferedRun>, a: nat)
    ensures Byte(dev, runs, a) == if Look(runs, a).Some? then Look(runs, a).value else dev(a)
  {
    if runs != [] {
      ByteIsLook(dev, runs[1..], a);
    }
  }

  lemma {:induction false} LookInJoin(x: seq<BufferedRun>, y: seq<BufferedRun>, a: nat)
    ensures Look(x + y, a) == if Look(x, a).Some? then Look(x, a) else Look(y, a)
  {
    if x == [] {
      assert x + y == y;
    } else {
      assert (x + y)[1..] == x[1..] + y;
      LookInJoin(x[1..], y, a);
    }
  }

  /** The same answers from two lists of runs, whatever lies under them. */
  ghost predicate SameBytes(x: seq<BufferedRun>, y: seq<BufferedRun>) {
    forall a: nat :: Look(x, a) == Look(y, a)
  }

  lemma SameJoin(x: seq<BufferedRun>, x': seq<BufferedRun>, y: seq<BufferedRun>, y': seq<BufferedRun>)
    requires SameBytes(x, x') && SameBytes(y, y')
    ensures SameBytes(x + y, x' + y')
  {
    forall a: nat ensures Look(x + y, a) == Look(x' + y', a) {
      LookInJoin(x, y, a);
      LookInJoin(x', y', a);
    }
  }

  /** In disjoint runs the byte is that of the one run that holds it. */
  lemma {:induction false} LookInRun(runs: seq<BufferedRun>, a: nat, i: nat)
    requires DisjointRuns(runs) && i < |runs| && runs[i].Has(a)
    ensures Look(runs, a) == Some(runs[i].buf[a - runs[i].diskOff])
  {
    if i > 0 {
      assert !runs[0].Has(a);
      LookInRun(runs[1..], a, i - 1);
    }
  }

  lemma {:induction false} LookNowhere(runs: seq<BufferedRun>, a: nat)
    requires forall i :: 0 <= i < |runs| ==> !runs[i].Has(a)
    ensures Look(runs, a) == None
  {
    if runs != [] {
      LookNowhere(runs[1..], a);
    }
  }

  // --- Sorting ------------------------------------------------------------------

  predicate Sorted(runs: seq<BufferedRun>) {
    forall i, j :: 0 <= i < j < |runs| ==> runs[i].diskOff <= runs[j].diskOff
  }

  ghost predicate Apart(x: BufferedRun, y: BufferedRun) {
    x.End() <= y.diskOff || y.End() <= x.diskOff
  }

  ghost predicate SameRuns(x: seq<BufferedRun>, y: seq<BufferedRun>) {
    forall r :: r in x <==> r in y
  }

  lemma InsertedIn(runs: seq<BufferedRun>, r: BufferedRun, at: nat)
    requires at <= |runs|
    ensures forall x :: x in runs[..at] + [r] + runs[at..] <==> x in runs || x == r
  {
    assert runs == runs[..at] + runs[at..];
    forall x | x in runs ensures x in runs[..at] || x in runs[at..] {
    }
  }

  lemma InsertedRun(runs: seq<BufferedRun>, r: BufferedRun, at: nat)
    requires Sorted(runs) && DisjointRuns(runs) && at <= |runs|
    requires forall k :: 0 <= k < |runs| ==> Apart(runs[k], r)
    requires forall k :: 0 <= k < at ==> runs[k].diskOff <= r.diskOff
    requires forall k :: at <= k < |runs| ==> r.diskOff < runs[k].diskOff
    ensures Sorted(runs[..at] + [r] + runs[at..]) && DisjointRuns(runs[..at] + [r] + runs[at..])
  {
    var s := runs[..at] + [r] + runs[at..];
    forall i, j | 0 <= i < j < |s|
      ensures s[i].diskOff <= s[j].diskOff && Apart(s[i], s[j])
    {
      if i == at {
        assert s[j] == runs[j - 1];
      } else if j == at {
        assert s[i] == runs[i];
      } else {
        assert s[i] == runs[if i < at then i else i - 1] && s[j] == runs[if j < at then j else j - 1];
      }
    }
  }

  method SortRuns(runs: seq<BufferedRun>) returns (r: seq<BufferedRun>)
    requires DisjointRuns(runs)
    ensures Sorted(r) && DisjointRuns(r) && SameRuns(r, runs)
  {
    r := [];
    for i := 0 to |runs|
      invariant Sorted(r) && DisjointRuns(r) && SameRuns(r, runs[..i])
    {
      assert runs[..i + 1] == runs[..i] + [runs[i]];
      forall k | 0 <= k < |r| ensures Apart(r[k], runs[i]) {
        assert r[k] in runs[..i];
      }
      var at := |r|;
      while at > 0 && r[at - 1].diskOff > runs[i].diskOff
        invariant 0 <= at <= |r|
        invariant forall k :: at <= k < |r| ==> runs[i].diskOff < r[k].diskOff
      {
        at := at - 1;
      }
      InsertedRun(r, runs[i], at);
      InsertedIn(r, runs[i], at);
      r := r[..at] + [runs[i]] + r[at..];
    }
    assert runs[..|runs|] == runs;
  }

  /** Disjoint runs answer alike in any order. */
  lemma OrderIsNothing(x: seq<BufferedRun>, y: seq<BufferedRun>)
    requires DisjointRuns(x) && DisjointRuns(y) && SameRuns(x, y)
    ensures SameBytes(x, y)
  {
    forall a: nat ensures Look(x, a) == Look(y, a) {
      if i :| 0 <= i < |x| && x[i].Has(a) {
        assert x[i] in y;
        var j :| 0 <= j < |y| && y[j] == x[i];
        LookInRun(x, a, i);
        LookInRun(y, a, j);
      } else {
        forall j | 0 <= j < |y| ensures !y[j].Has(a) {
          assert y[j] in x;
        }
        LookNowhere(x, a);
        LookNowhere(y, a);
      }
    }
  }

  // --- Merging --------------------------------------------------------------------

  /** Two adjacent runs as one. */
  lemma Merged(g: BufferedRun, r: BufferedRun)
    requires r.diskOff == g.End()
    ensures SameBytes([BufferedRun(g.diskOff, g.buf + r.buf)], [g] + [r])
  {
    var m := BufferedRun(g.diskOff, g.buf + r.buf);
    forall a: nat ensures Look([m], a) == Look([g] + [r], a) {
      LookInJoin([g], [r], a);
    }
  }

  /** What one pass of the loop merges: the runs from `i` to `j`, as one group. */
  ghost predicate Group(runs: seq<BufferedRun>, i: nat, j: nat, g: BufferedRun) {
    && i < j <= |runs| && g.diskOff == runs[i].diskOff && g.End() == runs[j - 1].End()
    && SameBytes([g], runs[i..j])
  }

  lemma GroupOfOne(runs: seq<BufferedRun>, i: nat)
    requires i < |runs|
    ensures Group(runs, i, i + 1, runs[i])
  {
    assert runs[i..i + 1] == [runs[i]];
  }

  lemma GroupGrows(runs: seq<BufferedRun>, i: nat, j: nat, g: BufferedRun)
    requires j < |runs| && Group(runs, i, j, g) && runs[j].diskOff == g.End()
    ensures Group(runs, i, j + 1, BufferedRun(g.diskOff, g.buf + runs[j].buf))
  {
    assert runs[i..j + 1] == runs[i..j] + [runs[j]];
    Merged(g, runs[j]);
    SameJoin([g], runs[i..j], [runs[j]], [runs[j]]);
  }

  /** The groups of the first `i` runs: the same bytes, in order, apart, and
      ending where those runs end. */
  ghost predicate Grouped(runs: seq<BufferedRun>, i: nat, groups: seq<BufferedRun>) {
    && i <= |runs| && SameBytes(groups, runs[..i]) && DisjointRuns(groups)
    && forall k :: 0 <= k < |groups| ==> i > 0 && groups[k].End() <= runs[i - 1].End()
  }

  lemma GroupJoins(runs: seq<BufferedRun>, i: nat, j: nat, groups: seq<BufferedRun>, g: BufferedRun)
    requires Sorted(runs) && DisjointRuns(runs) && Grouped(runs, i, groups) && Group(runs, i, j, g)
    requires forall k :: 0 <= k < |runs| ==> |runs[k].buf| > 0
    ensures Grouped(runs, j, groups + [g])
  {
    assert runs[..j] == runs[..i] + runs[i..j];
    SameJoin(groups, runs[..i], [g], runs[i..j]);
    var all := groups + [g];
    forall k | 0 <= k < |groups| ensures groups[k].End() <= g.diskOff {
    }
    forall x, y | 0 <= x < y < |all| ensures all[x].End() <= all[y].diskOff || all[y].End() <= all[x].diskOff {
    }
  }

  /** One group for each stretch of adjacent runs. */
  method Coalesce(runs: seq<BufferedRun>) returns (groups: seq<BufferedRun>)
    requires Sorted(runs) && DisjointRuns(runs) && forall k :: 0 <= k < |runs| ==> |runs[k].buf| > 0
    ensures SameBytes(groups, runs) && DisjointRuns(groups)
  {
    groups := [];
    var i := 0;
    while i < |runs|
      invariant Grouped(runs, i, groups)
    {
      var g := runs[i];
      var j := i + 1;
      GroupOfOne(runs, i);
      while j < |runs| && runs[j].diskOff == g.End()
        invariant Group(runs, i, j, g)
      {
        GroupGrows(runs, i, j, g);
        g := BufferedRun(g.diskOff, g.buf + runs[j].buf);
        j := j + 1;
      }
      GroupJoins(runs, i, j, groups, g);
      groups := groups + [g];
      i := j;
    }
    assert runs[..i] == runs;
  }

  // --- Writing ----------------------------------------------------------------------

  function WriteRun(dev: Device, g: BufferedRun): Device {
    (a: nat) => if g.Has(a) then g.buf[a - g.diskOff] else dev(a)
  }

  /** A write that failed may have left anything in its range. */
  function TornRun(dev: Device, g: BufferedRun, torn: Device): Device {
    (a: nat) => if g.Has(a) then torn(a) else dev(a)
  }

  /** After the groups in `done` went down, and those in `bad` failed. */
  ghost predicate Issued(dev: Device, now: Device, groups: seq<BufferedRun>, done: set<nat>, bad: set<nat>) {
    && (forall k, a: nat :: k in done && k < |groups| && groups[k].Has(a) ==> now(a) == groups[k].buf[a - groups[k].diskOff])
    && (forall a: nat :: (forall k :: k in done + bad && k < |groups| ==> !groups[k].Has(a)) ==> now(a) == dev(a))
  }

  lemma OneMoreIssued(dev: Device, now: Device, groups: seq<BufferedRun>, done: set<nat>, bad: set<nat>, k: nat, torn: Device)
    requires DisjointRuns(groups) && k < |groups| && Issued(dev, now, groups, done, bad) && k !in done + bad
    ensures Issued(dev, WriteRun(now, groups[k]), groups, done + {k}, bad)
    ensures Issued(dev, TornRun(now, groups[k], torn), groups, done, bad + {k})
  {
  }

  lemma AllIssued(dev: Device, now: Device, groups: seq<BufferedRun>, done: set<nat>, bad: set<nat>, a: nat)
    requires DisjointRuns(groups) && Issued(dev, now, groups, done, bad) && forall k :: 0 <= k < |groups| ==> k in done + bad
    ensures bad == {} ==> now(a) == Byte(dev, groups, a)
    ensures Byte(now, groups, a) == Byte(dev, groups, a)
    ensures Look(groups, a).None? ==> now(a) == dev(a)
  {
    ByteIsLook(dev, groups, a);
    ByteIsLook(now, groups, a);
    if k :| 0 <= k < |groups| && groups[k].Has(a) {
      LookInRun(groups, a, k);
    } else {
      LookNowhere(groups, a);
    }
  }

  /** Seen through the groups nothing changed, off them the device did not, and
      once all went down the device alone answers. */
  ghost predicate Settled(dev: Device, now: Device, groups: seq<BufferedRun>, ok: bool) {
    forall a: nat ::
      && (ok ==> now(a) == Byte(dev, groups, a))
      && Byte(now, groups, a) == Byte(dev, groups, a)
      && (Look(groups, a).None? ==> now(a) == dev(a))
  }

  lemma AllSettled(dev: Device, now: Device, groups: seq<BufferedRun>, done: set<nat>, bad: set<nat>)
    requires DisjointRuns(groups) && Issued(dev, now, groups, done, bad) && forall k :: 0 <= k < |groups| ==> k in done + bad
    ensures Settled(dev, now, groups, bad == {})
  {
    forall a: nat
      ensures (bad == {} ==> now(a) == Byte(dev, groups, a)) && Byte(now, groups, a) == Byte(dev, groups, a)
              && (Look(groups, a).None? ==> now(a) == dev(a))
    {
      AllIssued(dev, now, groups, done, bad, a);
    }
  }

  /** The groups go down in whatever order they come up; each may fail. */
  method WriteGroups(dev: Device, groups: seq<BufferedRun>, fails: set<nat>, torn: Device) returns (now: Device, ok: bool)
    requires DisjointRuns(groups)
    ensures Settled(dev, now, groups, ok) && (!ok ==> fails != {})
  {
    now, ok := dev, true;
    ghost var done: set<nat>, bad: set<nat> := {}, {};
    var todo := Span(0, |groups|);
    while todo != {}
      invariant Issued(dev, now, groups, done, bad) && (ok <==> bad == {})
      invariant bad <= fails
      invariant forall k :: 0 <= k < |groups| ==> k in todo || k in done + bad
      invariant todo !! (done + bad) && forall k :: k in todo ==> 0 <= k < |groups|
      decreases |todo|
    {
      var k :| k in todo;
      OneMoreIssued(dev, now, groups, done, bad, k, torn);
      if k in fails {
        now, ok, bad := TornRun(now, groups[k], torn), false, bad + {k};
      } else {
        now, done := WriteRun(now, groups[k]), done + {k};
      }
      todo := todo - {k};
    }
    AllSettled(dev, now, groups, done, bad);
  }

  lemma SameThrough(dev: Device, x: seq<BufferedRun>, y: seq<BufferedRun>, a: nat)
    requires SameBytes(x, y)
    ensures Byte(dev, x, a) == Byte(dev, y, a)
  {
    ByteIsLook(dev, x, a);
    ByteIsLook(dev, y, a);
  }

  /** Puts disjoint runs on the device. What the node reads through the runs it
      still buffers is what it read before, whether every write went down, some
      failed or tore; off the runs the device is untouched; and once all went
      down the device alone answers as each run written separately would. */
  method FlushData(dev: Device, runs: seq<BufferedRun>, fails: set<nat>, torn: Device)
    returns (now: Device, rest: seq<BufferedRun>, ok: bool)
    requires DisjointRuns(runs) && forall k :: 0 <= k < |runs| ==> |runs[k].buf| > 0
    ensures forall a: nat :: Byte(now, rest, a) == Byte(dev, runs, a)
    ensures forall a: nat :: Look(runs, a).None? ==> now(a) == dev(a)
    ensures ok ==> rest == [] && forall a: nat :: now(a) == Byte(dev, runs, a)
    ensures !ok ==> SameRuns(rest, runs) && DisjointRuns(rest) && fails != {}
  {
    if |runs| == 0 {
      return dev, [], true;
    }
    var sorted := SortRuns(runs);
    forall k | 0 <= k < |sorted| ensures |sorted[k].buf| > 0 {
      assert sorted[k] in runs;
    }
    var groups := Coalesce(sorted);
    now, ok := WriteGroups(dev, groups, fails, torn);
    OrderIsNothing(sorted, runs);
    forall a: nat
      ensures Byte(now, sorted, a) == Byte(dev, runs, a) && (ok ==> now(a) == Byte(dev, runs, a))
              && (Look(runs, a).None? ==> now(a) == dev(a))
    {
      SameThrough(dev, groups, sorted, a);
      SameThrough(now, groups, sorted, a);
      SameThrough(dev, sorted, runs, a);
      assert Look(groups, a) == Look(sorted, a) == Look(runs, a);
    }
    rest := if ok then [] else sorted;
  }
}
