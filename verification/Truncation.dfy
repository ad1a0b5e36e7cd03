/** Shrinking a file: an overwrite of everything from the new size to the end of
    the address space (internal/ipc/datapath.go truncateOnce). */
module Truncation {
  import opened Common
  import opened Extents
  import opened WritePath

  /** The largest 64-bit offset, which truncate passes as the end of the range. */
  const MAX_OFF: nat := 0xFFFF_FFFF_FFFF_FFFF

  /** What a shrink to `size` leaves of one extent. */
  function Trim(arenas: set<nat>, e: Extent, size: nat): seq<Extent> {
    if e.End() <= size || !Owns(arenas, e.diskOff) then [e]
    else if size > e.logOff then [e.(length := size - e.logOff)]
    else []
  }

  function TrimAll(arenas: set<nat>, es: seq<Extent>, size: nat): seq<Extent> {
    if es == [] then [] else Trim(arenas, es[0], size) + TrimAll(arenas, es[1..], size)
  }

  /** The blocks a shrink gives back. */
  function TrimFreed(arenas: set<nat>, es: seq<Extent>, size: nat): set<nat> {
    if es == [] then {} else Freed(arenas, es[0], size, MAX_OFF) + TrimFreed(arenas, es[1..], size)
  }

  /** Reclaiming `[size, MAX_OFF)` from an extent leaves its trimmed head. */
  lemma TrimIsReclaim(arenas: set<nat>, e: Extent, size: nat, next: nat)
    requires e.length > 0 && e.End() <= MAX_OFF
    ensures Survivors(arenas, e, size, MAX_OFF, next) == Trim(arenas, e, size)
  {
  }

  lemma TrimStep(arenas: set<nat>, es: seq<Extent>, size: nat, i: nat, r: seq<Extent>, freed: set<nat>)
    requires AllWell(es) && i < |es| && es[i].End() <= MAX_OFF
    ensures r + TrimAll(arenas, es[i..], size) == r + Trim(arenas, es[i], size) + TrimAll(arenas, es[i + 1..], size)
    ensures freed + TrimFreed(arenas, es[i..], size)
            == (if es[i].End() > size then freed + Freed(arenas, es[i], size, MAX_OFF) else freed)
               + TrimFreed(arenas, es[i + 1..], size)
  {
    assert es[i..][1..] == es[i + 1..];
  }

  /** The loop over the extents past the new size. */
  method TruncateOnce(arenas: set<nat>, es: seq<Extent>, size: nat) returns (r: seq<Extent>, freed: set<nat>)
    requires AllWell(es) && forall i :: 0 <= i < |es| ==> es[i].End() <= MAX_OFF
    ensures r == TrimAll(arenas, es, size)
    ensures freed == TrimFreed(arenas, es, size)
  {
    r, freed := [], {};
    var i := 0;
    while i < |es|
      invariant 0 <= i <= |es|
      invariant r + TrimAll(arenas, es[i..], size) == TrimAll(arenas, es, size)
      invariant freed + TrimFreed(arenas, es[i..], size) == TrimFreed(arenas, es, size)
    {
      TrimStep(arenas, es, size, i, r, freed);
      if es[i].End() > size {
        TrimIsReclaim(arenas, es[i], size, 0);
        r := r + Survivors(arenas, es[i], size, MAX_OFF, 0);
        freed := freed + Freed(arenas, es[i], size, MAX_OFF);
      } else {
        r := r + [es[i]];
      }
      i := i + 1;
    }
  }

  ghost predicate PastOwned(arenas: set<nat>, es: seq<Extent>, size: nat) {
    forall i :: 0 <= i < |es| && es[i].End() > size ==> Owns(arenas, es[i].diskOff)
  }

  lemma {:induction false} TrimmedFrom(arenas: set<nat>, es: seq<Extent>, size: nat)
    ensures forall x :: x in TrimAll(arenas, es, size) ==> exists k :: 0 <= k < |es| && Trim(arenas, es[k], size) == [x]
  {
    if es != [] {
      TrimmedFrom(arenas, es[1..], size);
      forall x | x in TrimAll(arenas, es, size)
        ensures exists k :: 0 <= k < |es| && Trim(arenas, es[k], size) == [x]
      {
        if x in Trim(arenas, es[0], size) {
          assert Trim(arenas, es[0], size) == [x];
        } else {
          var k :| 0 <= k < |es[1..]| && Trim(arenas, es[1..][k], size) == [x];
          assert Trim(arenas, es[k + 1], size) == [x];
        }
      }
    }
  }

  /** Below the new size every byte keeps its device byte, whoever owns it. */
  lemma {:induction false} TruncateKeepsBelow(arenas: set<nat>, es: seq<Extent>, size: nat, p: nat)
    requires p < size
    ensures FirstCovering(TrimAll(arenas, es, size), p).Some? == FirstCovering(es, p).Some?
    ensures FirstCovering(es, p).Some? ==>
              FirstCovering(TrimAll(arenas, es, size), p).value.Addr(p) == FirstCovering(es, p).value.Addr(p)
  {
    if es != [] {
      TruncateKeepsBelow(arenas, es[1..], size, p);
      var t := Trim(arenas, es[0], size);
      var rest := TrimAll(arenas, es[1..], size);
      if t != [] {
        assert TrimAll(arenas, es, size) == [t[0]] + rest;
        assert ([t[0]] + rest)[1..] == rest;
      } else {
        assert TrimAll(arenas, es, size) == rest;
      }
    }
  }

  lemma {:induction false} TrimmedStays(arenas: set<nat>, es: seq<Extent>, size: nat, i: nat)
    requires i < |es| && Trim(arenas, es[i], size) == [es[i]]
    ensures es[i] in TrimAll(arenas, es, size)
  {
    if i > 0 {
      TrimmedStays(arenas, es[1..], size, i - 1);
    }
  }

  /** A shrink leaves nothing past the new size exactly when this node owns every
      extent that reaches past it. */
  lemma TruncateCutsIff(arenas: set<nat>, es: seq<Extent>, size: nat)
    requires AllWell(es)
    ensures (forall p: nat :: p >= size ==> FirstCovering(TrimAll(arenas, es, size), p).None?)
            <==> PastOwned(arenas, es, size)
  {
    if PastOwned(arenas, es, size) {
      TrimmedFrom(arenas, es, size);
      forall p: nat | p >= size ensures FirstCovering(TrimAll(arenas, es, size), p).None? {
      }
    } else {
      var i :| 0 <= i < |es| && es[i].End() > size && !Owns(arenas, es[i].diskOff);
      TrimmedStays(arenas, es, size, i);
      assert es[i].Covers(Max(size, es[i].logOff));
      assert FirstCovering(TrimAll(arenas, es, size), Max(size, es[i].logOff)).Some?;
    }
  }

  lemma TrimPair(arenas: set<nat>, a: Extent, b: Extent, size: nat, x: Extent, y: Extent)
    requires WellFormed(a) && WellFormed(b) && Compatible(a, b)
    requires Trim(arenas, a, size) == [x] && Trim(arenas, b, size) == [y]
    ensures Compatible(x, y) && (ExtentOrder(a, b) <= 0 ==> ExtentOrder(x, y) <= 0)
  {
    assert BlocksFor(x.length) <= BlocksFor(a.length) && BlocksFor(y.length) <= BlocksFor(b.length);
    assert x.Overlaps(y) ==> a.Overlaps(b);
    assert Blocks(x) <= Blocks(a) && Blocks(y) <= Blocks(b);
  }

  /** A shrink keeps the list good. */
  lemma {:induction false} TruncateKeepsGood(arenas: set<nat>, es: seq<Extent>, size: nat)
    requires Good(es)
    ensures Good(TrimAll(arenas, es, size))
  {
    if es != [] {
      var t := Trim(arenas, es[0], size);
      var rest := TrimAll(arenas, es[1..], size);
      TruncateKeepsGood(arenas, es[1..], size);
      if t == [] {
        assert TrimAll(arenas, es, size) == rest;
      } else {
        TrimmedFrom(arenas, es[1..], size);
        forall y | y in rest
          ensures Compatible(t[0], y) && ExtentOrder(t[0], y) <= 0
        {
          var k :| 0 <= k < |es[1..]| && Trim(arenas, es[1..][k], size) == [y];
          assert Compatible(es[0], es[k + 1]) && ExtentOrder(es[0], es[k + 1]) <= 0;
          TrimPair(arenas, es[0], es[k + 1], size, t[0], y);
        }
        assert t == [t[0]];
        ConsGood(t[0], rest);
      }
    }
  }

  lemma ConsGood(x: Extent, rest: seq<Extent>)
    requires WellFormed(x) && Good(rest)
    requires forall y :: y in rest ==> Compatible(x, y) && ExtentOrder(x, y) <= 0
    ensures Good([x] + rest)
  {
    var c := [x] + rest;
    forall i, j | 0 <= i < j < |c| ensures Compatible(c[i], c[j]) && ExtentOrder(c[i], c[j]) <= 0 {
      assert c[j] == rest[j - 1];
      if i > 0 {
        assert c[i] == rest[i - 1];
      }
    }
  }

  lemma TrimPartition(arenas: set<nat>, e: Extent, size: nat)
    requires WellFormed(e) && e.End() <= MAX_OFF
    ensures AllBlocks(Trim(arenas, e, size)) + Freed(arenas, e, size, MAX_OFF) == Blocks(e)
    ensures AllBlocks(Trim(arenas, e, size)) !! Freed(arenas, e, size, MAX_OFF)
  {
    BlocksOfFew(Trim(arenas, e, size));
    if Hits(e, size, MAX_OFF) && Owns(arenas, e.diskOff) {
      var h := if size > e.logOff then BlocksFor(size - e.logOff) else 0;
      var n := BlocksFor(e.length);
      assert h <= n;
      var (off, len) := CoveredBlocks(e, SplitAround(e, size, MAX_OFF).0, None);
      assert h < n ==> off / BLOCK == e.diskOff / BLOCK + h && BlocksFor(len) == n - h;
      assert Freed(arenas, e, size, MAX_OFF) == Span(e.diskOff / BLOCK + h, n - h);
    }
  }

  /** What a shrink frees and what it keeps divide the file's blocks. */
  lemma {:induction false} TruncatePartition(arenas: set<nat>, es: seq<Extent>, size: nat)
    requires Pairwise(es) && forall i :: 0 <= i < |es| ==> es[i].End() <= MAX_OFF
    ensures AllBlocks(TrimAll(arenas, es, size)) + TrimFreed(arenas, es, size) == AllBlocks(es)
    ensures AllBlocks(TrimAll(arenas, es, size)) !! TrimFreed(arenas, es, size)
  {
    if es != [] {
      TruncatePartition(arenas, es[1..], size);
      TrimPartition(arenas, es[0], size);
      BlocksOfJoin(Trim(arenas, es[0], size), TrimAll(arenas, es[1..], size));
      HeadBlocksApart(es);
    }
  }
}
