/** What the scrubber may reclaim (pkg/scrub/scrubber.go): extents nothing can
    read any more, and the collisions it must find. */
module Scrub {
  import opened Common
  import opened Extents

  /** An extent of a live inode that no read within the file's size reaches. */
  predicate Dead(e: Extent, size: nat, siblings: seq<Extent>) {
    e.logOff >= size || exists o :: o in siblings && o.Supersedes(e)
  }

  /** A later extent supersedes another exactly when it covers every byte of it. */
  lemma SupersedesIff(o: Extent, e: Extent)
    requires e.length > 0
    ensures o.Supersedes(e) <==> o.sn > e.sn && forall p :: e.Covers(p) ==> o.Covers(p)
  {
    if forall p :: e.Covers(p) ==> o.Covers(p) {
      assert e.Covers(e.logOff) && e.Covers(e.End() - 1);
    }
  }

  /** An extent is dead exactly when it starts past the end of the file or one
      later sibling covers every byte of it. */
  lemma DeadIff(e: Extent, size: nat, siblings: seq<Extent>)
    requires e.length > 0
    ensures Dead(e, size, siblings) <==>
            e.logOff >= size || exists o :: o in siblings && o.sn > e.sn && forall p :: e.Covers(p) ==> o.Covers(p)
  {
    forall o | o in siblings ensures o.Supersedes(e) <==> o.sn > e.sn && forall p :: e.Covers(p) ==> o.Covers(p) {
      SupersedesIff(o, e);
    }
  }

  method DeadReason(e: Extent, size: nat, siblings: seq<Extent>) returns (dead: bool)
    ensures dead <==> Dead(e, size, siblings)
  {
    if e.logOff >= size {
      return true;
    }
    for i := 0 to |siblings|
      invariant forall k :: 0 <= k < i ==> !siblings[k].Supersedes(e)
    {
      if siblings[i].Supersedes(e) {
        return true;
      }
    }
    return false;
  }

  /** Every dead extent of one inode, in list order. */
  method CheckDeadExtents(es: seq<Extent>, size: nat) returns (found: seq<Extent>)
    ensures forall e :: e in found <==> e in es && Dead(e, size, es)
  {
    found := [];
    for i := 0 to |es|
      invariant forall e :: e in found <==> e in es[..i] && Dead(e, size, es)
    {
      var dead := DeadReason(es[i], size, es);
      assert es[..i + 1] == es[..i] + [es[i]];
      if dead {
        found := found + [es[i]];
      }
    }
    assert es[..|es|] == es;
  }

  /** The list once some extents' records are deleted. */
  function Without(es: seq<Extent>, gone: set<Extent>): (r: seq<Extent>)
    ensures forall e :: e in r <==> e in es && e !in gone
  {
    if es == [] then []
    else if es[0] in gone then Without(es[1..], gone)
    else [es[0]] + Without(es[1..], gone)
  }

  lemma {:induction false} FirstSurvives(es: seq<Extent>, gone: set<Extent>, p: nat)
    requires FirstCovering(es, p).Some? ==> FirstCovering(es, p).value !in gone
    ensures FirstCovering(Without(es, gone), p) == FirstCovering(es, p)
  {
    if es != [] && !es[0].Covers(p) {
      FirstSurvives(es[1..], gone, p);
      if es[0] !in gone {
        assert Without(es, gone)[1..] == Without(es[1..], gone);
      }
    }
  }

  /** The extent a walk resolves a byte to is never dead. */
  lemma ResolvedIsAlive(es: seq<Extent>, size: nat, p: nat)
    requires Ordered(es) && p < size && FirstCovering(es, p).Some?
    ensures !Dead(FirstCovering(es, p).value, size, es)
  {
    var i := FirstCoveringIndex(es, p);
    forall o | o in es
      ensures !o.Supersedes(es[i])
    {
      var k :| 0 <= k < |es| && es[k] == o;
      assert i <= k ==> ExtentOrder(es[i], es[k]) <= 0;
    }
  }

  /** Deleting any of the extents reported dead, chains of superseded ones
      included, changes no byte of any read within the file's size. */
  lemma ReclaimKeepsContents(dev: Device, runs: seq<BufferedRun>, es: seq<Extent>, size: nat, gone: set<Extent>, p: nat)
    requires Ordered(es) && p < size
    requires forall e :: e in gone ==> Dead(e, size, es)
    ensures Content(dev, runs, Without(es, gone), p) == Content(dev, runs, es, p)
  {
    if FirstCovering(es, p).Some? {
      ResolvedIsAlive(es, size, p);
    }
    FirstSurvives(es, gone, p);
  }

  // ---- device collisions ----

  predicate ByDisk(es: seq<Extent>) {
    forall i, j :: 0 <= i < j < |es| ==> es[i].diskOff <= es[j].diskOff
  }

  /** One extent's range starts inside the other's. */
  predicate Collide(a: Extent, b: Extent) {
    a.diskOff <= b.diskOff < a.diskOff + a.length
  }

  /** Both extents have the device byte. */
  predicate ShareByte(a: Extent, b: Extent, d: nat) {
    a.diskOff <= d < a.diskOff + a.length && b.diskOff <= d < b.diskOff + b.length
  }

  /** Of two extents in device order, the second collides with the first exactly
      when they have a device byte in common. */
  lemma CollideIff(a: Extent, b: Extent)
    requires a.diskOff <= b.diskOff && b.length > 0
    ensures Collide(a, b) <==> exists d :: ShareByte(a, b, d)
  {
    if Collide(a, b) {
      assert ShareByte(a, b, b.diskOff);
    }
  }

  /** In a list sorted by device offset, looking at neighbours finds a collision
      whenever any two extents collide. */
  lemma NeighboursSuffice(es: seq<Extent>, i: nat, j: nat)
    requires ByDisk(es) && i < j < |es| && Collide(es[i], es[j])
    ensures Collide(es[i], es[i + 1])
  {
  }

  lemma InsertedByDisk(es: seq<Extent>, e: Extent, at: nat)
    requires ByDisk(es) && at <= |es|
    requires at > 0 ==> es[at - 1].diskOff <= e.diskOff
    requires forall k :: at <= k < |es| ==> es[k].diskOff > e.diskOff
    ensures ByDisk(es[..at] + [e] + es[at..])
  {
  }

  method InsertByDisk(es: seq<Extent>, e: Extent) returns (r: seq<Extent>)
    requires ByDisk(es)
    ensures ByDisk(r) && multiset(r) == multiset(es) + multiset{e}
  {
    var at := |es|;
    while at > 0 && es[at - 1].diskOff > e.diskOff
      invariant 0 <= at <= |es|
      invariant forall k :: at <= k < |es| ==> es[k].diskOff > e.diskOff
    {
      at := at - 1;
    }
    InsertedByDisk(es, e, at);
    assert es == es[..at] + es[at..];
    r := es[..at] + [e] + es[at..];
  }

  method SortByDisk(es: seq<Extent>) returns (r: seq<Extent>)
    ensures ByDisk(r) && multiset(r) == multiset(es)
  {
    r := [];
    for i := 0 to |es|
      invariant ByDisk(r) && multiset(r) == multiset(es[..i])
    {
      r := InsertByDisk(r, es[i]);
      assert es[..i + 1] == es[..i] + [es[i]];
    }
    assert es[..|es|] == es;
  }

  /** The collision check reports nothing exactly when no extent's device range
      starts inside another's. */
  method CheckExtentCollisions(es: seq<Extent>) returns (found: seq<Extent>, byStart: seq<Extent>)
    ensures ByDisk(byStart) && multiset(byStart) == multiset(es)
    ensures found == [] <==> forall i, j :: 0 <= i < j < |byStart| ==> !Collide(byStart[i], byStart[j])
    ensures (forall e :: e in es ==> e.length > 0) ==>
              (found == [] <==> forall i, j, d :: 0 <= i < j < |byStart| ==> !ShareByte(byStart[i], byStart[j], d))
  {
    byStart := SortByDisk(es);
    found := [];
    var i := 1;
    while i < |byStart|
      invariant 1 <= i
      invariant found == [] <==> forall k :: 0 < k < i && k < |byStart| ==> !Collide(byStart[k - 1], byStart[k])
    {
      if byStart[i - 1].diskOff + byStart[i - 1].length > byStart[i].diskOff {
        found := found + [byStart[i]];
      }
      i := i + 1;
    }
    if found == [] {
      forall i, j | 0 <= i < j < |byStart|
        ensures !Collide(byStart[i], byStart[j])
      {
        if Collide(byStart[i], byStart[j]) {
          NeighboursSuffice(byStart, i, j);
        }
      }
    }
    if forall e :: e in es ==> e.length > 0 {
      BytesCollide(es, byStart);
    }
  }

  lemma BytesCollide(es: seq<Extent>, byStart: seq<Extent>)
    requires ByDisk(byStart) && multiset(byStart) == multiset(es) && forall e :: e in es ==> e.length > 0
    ensures (forall i, j :: 0 <= i < j < |byStart| ==> !Collide(byStart[i], byStart[j])) <==>
            forall i, j, d :: 0 <= i < j < |byStart| ==> !ShareByte(byStart[i], byStart[j], d)
  {
    forall i, j | 0 <= i < j < |byStart|
      ensures Collide(byStart[i], byStart[j]) <==> exists d :: ShareByte(byStart[i], byStart[j], d)
    {
      assert byStart[j] in multiset(es);
      CollideIff(byStart[i], byStart[j]);
    }
  }
}
