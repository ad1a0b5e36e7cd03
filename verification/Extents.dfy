/** Extents, the resolution order of an extent list, and the forward walk a
    read makes over it (pkg/metadata/extent.go, the read loop of
    internal/ipc/datapath.go). */
module Extents {
  import opened Common

  /** One extent: a logical byte range of a file on a range of the device.
      `sn` orders writes to the same bytes; `chunk` only names the record.
      The record's ModRevision is kept in a map beside the list. */
  datatype Extent = Extent(chunk: nat, sn: nat, node: Node, gen: nat,
                           logOff: nat, diskOff: nat, length: nat)
  {
    function End(): nat {
      logOff + length
    }

    predicate Covers(p: nat) {
      logOff <= p < End()
    }

    /** The device byte behind logical byte `p`. */
    function Addr(p: nat): nat
      requires Covers(p)
    {
      diskOff + (p - logOff)
    }

    predicate Overlaps(other: Extent) {
      logOff < other.End() && other.logOff < End()
    }

    /** Covers all of `other` and was written later. */
    predicate Supersedes(other: Extent) {
      sn > other.sn && logOff <= other.logOff && End() >= other.End()
    }
  }

  /** Resolution order: logical offset, newest first within one, then chunk. */
  function ExtentOrder(a: Extent, b: Extent): int {
    if a.logOff != b.logOff then a.logOff - b.logOff
    else if a.sn != b.sn then b.sn - a.sn
    else b.chunk - a.chunk
  }

  predicate Ordered(es: seq<Extent>) {
    forall i, j :: 0 <= i < j < |es| ==> ExtentOrder(es[i], es[j]) <= 0
  }

  predicate DistinctChunks(es: seq<Extent>) {
    forall i, j :: 0 <= i < j < |es| ==> es[i].chunk != es[j].chunk
  }

  /** An extent belongs at `at`: everything before it sorts before, nothing after does. */
  lemma InsertKeepsOrder(es: seq<Extent>, e: Extent, at: nat)
    requires Ordered(es) && at <= |es|
    requires forall k :: 0 <= k < at ==> ExtentOrder(es[k], e) < 0
    requires forall k :: at <= k < |es| ==> ExtentOrder(es[k], e) >= 0
    ensures Ordered(es[..at] + [e] + es[at..])
    ensures multiset(es[..at] + [e] + es[at..]) == multiset(es) + multiset{e}
  {
    var r := es[..at] + [e] + es[at..];
    forall i, j | 0 <= i < j < |r|
      ensures ExtentOrder(r[i], r[j]) <= 0
    {
      var x := if i < at then es[i] else if i == at then e else es[i - 1];
      var y := if j < at then es[j] else if j == at then e else es[j - 1];
      assert r[i] == x && r[j] == y;
    }
    assert es == es[..at] + es[at..];
  }

  /** Puts one extent into an ordered list at its place, found by binary search. */
  method InsertExtent(es: seq<Extent>, e: Extent) returns (r: seq<Extent>, ghost at: nat)
    requires Ordered(es)
    ensures Ordered(r) && multiset(r) == multiset(es) + multiset{e}
    ensures at <= |es| && r == es[..at] + [e] + es[at..]
  {
    var lo, hi := 0, |es|;
    while lo < hi
      invariant 0 <= lo <= hi <= |es|
      invariant forall k :: 0 <= k < lo ==> ExtentOrder(es[k], e) < 0
      invariant forall k :: hi <= k < |es| ==> ExtentOrder(es[k], e) >= 0
    {
      var mid := lo + (hi - lo) / 2;
      if ExtentOrder(es[mid], e) >= 0 {
        OrderAgainst(es, e, mid);
        hi := mid;
      } else {
        OrderAgainst(es, e, mid);
        lo := mid + 1;
      }
    }
    InsertKeepsOrder(es, e, lo);
    r, at := es[..lo] + [e] + es[lo..], lo;
  }

  /** What one probe of the search says about the rest of an ordered list. */
  lemma OrderAgainst(es: seq<Extent>, e: Extent, mid: nat)
    requires Ordered(es) && mid < |es|
    ensures ExtentOrder(es[mid], e) >= 0 ==> forall k :: mid <= k < |es| ==> ExtentOrder(es[k], e) >= 0
    ensures ExtentOrder(es[mid], e) < 0 ==> forall k :: 0 <= k <= mid ==> ExtentOrder(es[k], e) < 0
  {
  }

  /** Puts a list in resolution order. */
  method SortExtents(es: seq<Extent>) returns (r: seq<Extent>)
    ensures Ordered(r)
    ensures multiset(r) == multiset(es)
  {
    r := [];
    for i := 0 to |es|
      invariant Ordered(r)
      invariant multiset(r) == multiset(es[..i])
    {
      ghost var at;
      r, at := InsertExtent(r, es[i]);
      assert es[..i + 1] == es[..i] + [es[i]];
    }
    assert es[..|es|] == es;
  }

  ghost predicate SameRecords(a: seq<Extent>, b: seq<Extent>) {
    forall e :: e in a <==> e in b
  }

  lemma HeadIsLeast(a: seq<Extent>, b: seq<Extent>)
    requires Ordered(a) && Ordered(b) && DistinctChunks(a)
    requires SameRecords(a, b) && |a| > 0 && |b| > 0
    ensures a[0] == b[0]
  {
    var x, y := a[0], b[0];
    assert x in b && y in a;
    var i :| 0 <= i < |b| && b[i] == x;
    var j :| 0 <= j < |a| && a[j] == y;
    assert i > 0 ==> ExtentOrder(b[0], b[i]) <= 0;
  }

  lemma HeadIsIn(a: seq<Extent>)
    ensures a != [] ==> a[0] in a
  {
  }

  lemma TailOf(a: seq<Extent>)
    requires DistinctChunks(a) && |a| > 0
    ensures forall e :: e in a[1..] <==> e in a && e != a[0]
  {
    assert a == [a[0]] + a[1..];
  }

  /** Two lists of the same distinct records in resolution order are one list,
      so a list maintained incrementally and one decoded afresh agree. */
  lemma {:induction false} OrderedIsCanonical(a: seq<Extent>, b: seq<Extent>)
    requires Ordered(a) && Ordered(b) && DistinctChunks(a) && DistinctChunks(b)
    requires SameRecords(a, b)
    ensures a == b
  {
    if |a| == 0 {
      HeadIsIn(b);
    } else {
      assert a[0] in b;
      HeadIsLeast(a, b);
      TailOf(a);
      TailOf(b);
      OrderedIsCanonical(a[1..], b[1..]);
      assert a == [a[0]] + a[1..] && b == [b[0]] + b[1..];
    }
  }

  /** The first extent of the list that covers a byte. */
  function FirstCovering(es: seq<Extent>, p: nat): (r: Option<Extent>)
    ensures r.Some? ==> r.value in es && r.value.Covers(p)
    ensures r.None? ==> forall e :: e in es ==> !e.Covers(p)
  {
    if es == [] then None
    else if es[0].Covers(p) then Some(es[0])
    else FirstCovering(es[1..], p)
  }

  lemma {:induction false} FirstCoveringAt(es: seq<Extent>, p: nat, i: nat)
    requires i < |es| && es[i].Covers(p)
    requires forall k :: 0 <= k < i ==> !es[k].Covers(p)
    ensures FirstCovering(es, p) == Some(es[i])
  {
    if i > 0 {
      FirstCoveringAt(es[1..], p, i - 1);
    }
  }

  lemma {:induction false} FirstCoveringIndex(es: seq<Extent>, p: nat) returns (i: nat)
    requires FirstCovering(es, p).Some?
    ensures i < |es| && FirstCovering(es, p) == Some(es[i])
    ensures forall k :: 0 <= k < i ==> !es[k].Covers(p)
  {
    if es[0].Covers(p) {
      i := 0;
    } else {
      i := FirstCoveringIndex(es[1..], p);
      i := i + 1;
    }
  }

  // ---- resolving an overwrite to the later write ----

  /** The newest extent covering a byte. */
  ghost predicate Newest(es: seq<Extent>, p: nat, e: Extent) {
    && e in es && e.Covers(p)
    && forall f :: f in es && f.Covers(p) && f != e ==> f.sn < e.sn
  }

  /** Of two overlapping extents the newer starts no later, and two of one
      write never overlap. */
  predicate Layered(x: Extent, y: Extent) {
    x.Overlaps(y) ==> x.sn != y.sn && (x.sn > y.sn ==> x.logOff <= y.logOff)
  }

  /** The device blocks an extent holds. */
  function Blocks(e: Extent): set<nat> {
    RangeBlocks(e.diskOff, e.length)
  }

  function RangeBlocks(off: nat, len: nat): set<nat> {
    Span(off / BLOCK, BlocksFor(len))
  }

  /** What any two records of one file owe each other. */
  ghost predicate Compatible(x: Extent, y: Extent) {
    && x.chunk != y.chunk
    && Layered(x, y) && Layered(y, x)
    && Blocks(x) !! Blocks(y)
  }

  predicate WellFormed(e: Extent) {
    e.length > 0 && Aligned(e.logOff) && Aligned(e.diskOff)
  }

  predicate AllWell(es: seq<Extent>) {
    forall i :: 0 <= i < |es| ==> WellFormed(es[i])
  }

  ghost predicate Pairwise(es: seq<Extent>) {
    && AllWell(es)
    && (forall i, j :: 0 <= i < j < |es| ==> Compatible(es[i], es[j]))
  }

  /** A list the walk resolves correctly and whose blocks are its own. */
  ghost predicate Good(es: seq<Extent>) {
    Ordered(es) && Pairwise(es)
  }

  /** In a good list the first extent covering a byte is the newest one. */
  lemma FirstIsNewest(es: seq<Extent>, p: nat)
    requires Good(es)
    ensures FirstCovering(es, p).Some? ==> Newest(es, p, FirstCovering(es, p).value)
  {
    if FirstCovering(es, p).Some? {
      var i := FirstCoveringIndex(es, p);
      forall f | f in es && f.Covers(p) && f != es[i]
        ensures f.sn < es[i].sn
      {
        var k :| 0 <= k < |es| && es[k] == f;
        assert Compatible(es[i], es[k]);
        OrderedPair(es, i, k);
      }
    }
  }

  /** An extent no older than any other covering a byte is the one it resolves to. */
  lemma TopCovers(es: seq<Extent>, p: nat, e: Extent)
    requires Good(es) && e in es && e.Covers(p)
    requires forall f :: f in es && f.Covers(p) ==> f.sn <= e.sn
    ensures FirstCovering(es, p) == Some(e)
  {
    FirstIsNewest(es, p);
  }

  ghost predicate SomeCovers(xs: set<Extent>, p: nat) {
    exists n :: n in xs && n.Covers(p)
  }

  /** `written` are the extents of one write over `[start, end)`, newer than
      everything else in the list. */
  ghost predicate IsWrite(es: seq<Extent>, written: set<Extent>, start: nat, end: nat) {
    && (forall n :: n in written ==> n in es && n.length > 0)
    && (forall p :: start <= p < end ==> SomeCovers(written, p))
    && (forall n :: n in written ==> start <= n.logOff && n.End() <= end)
    && (forall n, m :: n in written && m in written && n != m ==> !n.Overlaps(m))
    && (forall n, x :: n in written && x in es && x !in written ==> x.sn < n.sn)
  }

  ghost predicate StartsNoLater(es: seq<Extent>, written: set<Extent>) {
    forall n, x :: n in written && x in es && x !in written && x.length > 0 && n.Overlaps(x)
      ==> n.logOff <= x.logOff
  }

  ghost predicate ResolvesTo(es: seq<Extent>, written: set<Extent>, p: nat) {
    FirstCovering(es, p).Some? && FirstCovering(es, p).value in written
  }

  lemma WrittenByteResolves(es: seq<Extent>, written: set<Extent>, start: nat, end: nat, p: nat)
    requires Ordered(es) && IsWrite(es, written, start, end) && StartsNoLater(es, written)
    requires start <= p < end
    ensures ResolvesTo(es, written, p)
  {
    assert SomeCovers(written, p);
    var n :| n in written && n.Covers(p);
    assert n in es;
    var i := FirstCoveringIndex(es, p);
    var x := es[i];
    if x !in written {
      var k :| 0 <= k < |es| && es[k] == n;
      OrderedPair(es, i, k);
      assert n.Overlaps(x);
    }
  }

  lemma OrderedPair(es: seq<Extent>, i: nat, k: nat)
    requires Ordered(es) && i <= k < |es|
    ensures ExtentOrder(es[i], es[k]) <= 0
  {
  }

  lemma ShadowedByte(es: seq<Extent>, written: set<Extent>, start: nat, end: nat, n: Extent, x: Extent)
    requires Ordered(es) && IsWrite(es, written, start, end)
    requires n in written && x in es && x !in written && x.length > 0 && n.Overlaps(x) && n.logOff > x.logOff
    ensures !ResolvesTo(es, written, n.logOff)
  {
    var p := n.logOff;
    assert x.Covers(p);
    var i := FirstCoveringIndex(es, p);
    var k :| 0 <= k < |es| && es[k] == x;
    assert i <= k;
    assert i < k ==> ExtentOrder(es[i], es[k]) <= 0;
    assert es[i] in written && es[i] != n ==> !es[i].Overlaps(n);
  }

  /** For any ordered list holding the extents of one write over `[start, end)`:
      every byte of the write resolves to the write exactly when each of its
      extents starts no later than every other extent it overlaps. */
  lemma ReadsBackIff(es: seq<Extent>, written: set<Extent>, start: nat, end: nat)
    requires Ordered(es) && IsWrite(es, written, start, end)
    ensures (forall p :: start <= p < end ==> ResolvesTo(es, written, p)) <==> StartsNoLater(es, written)
  {
    if StartsNoLater(es, written) {
      forall p | start <= p < end ensures ResolvesTo(es, written, p) {
        WrittenByteResolves(es, written, start, end, p);
      }
    } else {
      var n, x :| n in written && x in es && x !in written && x.length > 0 && n.Overlaps(x) && n.logOff > x.logOff;
      ShadowedByte(es, written, start, end, n, x);
    }
  }

  // ---- reordering keeps the pairwise facts ----

  /** `c` holds the records of `a` and of `b`, one per chunk, in some order. */
  ghost predicate Holds(c: seq<Extent>, a: seq<Extent>, b: seq<Extent>) {
    && DistinctChunks(c)
    && forall x :: x in c <==> x in a || x in b
  }

  lemma SeparateRecords(a: seq<Extent>, x: Extent, y: Extent)
    requires Pairwise(a) && x in a && y in a && x != y
    ensures Compatible(x, y)
  {
    var p :| 0 <= p < |a| && a[p] == x;
    var q :| 0 <= q < |a| && a[q] == y;
    assert if p < q then Compatible(a[p], a[q]) else Compatible(a[q], a[p]);
  }

  lemma ReorderKeepsPairwise(c: seq<Extent>, a: seq<Extent>, b: seq<Extent>)
    requires Holds(c, a, b) && Pairwise(a + b)
    ensures Pairwise(c)
  {
    forall i | 0 <= i < |c| ensures WellFormed(c[i]) {
      assert c[i] in a + b;
    }
    forall i, j | 0 <= i < j < |c| ensures Compatible(c[i], c[j]) {
      assert c[i] in a + b && c[j] in a + b;
      SeparateRecords(a + b, c[i], c[j]);
    }
  }

  // ---- the device and the bytes a read returns ----

  type Device = nat -> bv8

  /** One device range whose bytes are still in RAM. */
  datatype BufferedRun = BufferedRun(diskOff: nat, buf: seq<bv8>)
  {
    function End(): nat {
      diskOff + |buf|
    }

    predicate Has(a: nat) {
      diskOff <= a < End()
    }

    /** The whole range `[a, a + n)` is buffered here. */
    predicate Holds(a: nat, n: nat) {
      diskOff <= a && a + n <= End()
    }

    function Slice(a: nat, n: nat): (s: seq<bv8>)
      requires Holds(a, n)
      ensures |s| == n
    {
      buf[a - diskOff..a - diskOff + n]
    }
  }

  /** The byte at a device address, from the buffered runs or the device. */
  function Byte(dev: Device, runs: seq<BufferedRun>, a: nat): bv8 {
    if runs == [] then dev(a)
    else if runs[0].Has(a) then runs[0].buf[a - runs[0].diskOff]
    else Byte(dev, runs[1..], a)
  }

  ghost predicate DisjointRuns(runs: seq<BufferedRun>) {
    forall i, j :: 0 <= i < j < |runs| ==>
      runs[i].End() <= runs[j].diskOff || runs[j].End() <= runs[i].diskOff
  }

  lemma {:induction false} ByteInRun(dev: Device, runs: seq<BufferedRun>, a: nat, i: nat)
    requires DisjointRuns(runs)
    requires i < |runs| && runs[i].Has(a)
    ensures Byte(dev, runs, a) == runs[i].buf[a - runs[i].diskOff]
  {
    if i > 0 {
      assert !runs[0].Has(a);
      ByteInRun(dev, runs[1..], a, i - 1);
    }
  }

  lemma {:induction false} ByteOnDevice(dev: Device, runs: seq<BufferedRun>, a: nat)
    requires forall i :: 0 <= i < |runs| ==> !runs[i].Has(a)
    ensures Byte(dev, runs, a) == dev(a)
  {
    if runs != [] {
      ByteOnDevice(dev, runs[1..], a);
    }
  }

  /** Each extent's device range lies inside one buffered run or meets none. */
  ghost predicate WholeOrNone(e: Extent, runs: seq<BufferedRun>) {
    || (exists i :: 0 <= i < |runs| && runs[i].Holds(e.diskOff, e.length))
    || (forall i, a :: 0 <= i < |runs| && e.diskOff <= a < e.diskOff + e.length ==> !runs[i].Has(a))
  }

  /** The byte a file holds at a logical offset; holes are zero. */
  function Content(dev: Device, runs: seq<BufferedRun>, es: seq<Extent>, p: nat): bv8 {
    match FirstCovering(es, p)
    case None => 0
    case Some(e) => Byte(dev, runs, e.Addr(p))
  }

  /** Serves a device range from the buffer, refusing one not wholly inside a run. */
  method ReadAt(runs: seq<BufferedRun>, a: nat, n: nat) returns (ok: bool, dst: seq<bv8>)
    ensures ok ==> exists i :: 0 <= i < |runs| && runs[i].Holds(a, n) && dst == runs[i].Slice(a, n)
    ensures !ok ==> forall i :: 0 <= i < |runs| ==> !runs[i].Holds(a, n)
  {
    for i := 0 to |runs|
      invariant forall k :: 0 <= k < i ==> !runs[k].Holds(a, n)
    {
      if runs[i].Holds(a, n) {
        return true, runs[i].Slice(a, n);
      }
    }
    return false, [];
  }

  lemma SliceBytes(dev: Device, runs: seq<BufferedRun>, i: nat, a: nat, n: nat)
    requires DisjointRuns(runs) && i < |runs| && runs[i].Holds(a, n)
    ensures forall k :: 0 <= k < n ==> runs[i].Slice(a, n)[k] == Byte(dev, runs, a + k)
  {
    forall k | 0 <= k < n ensures runs[i].Slice(a, n)[k] == Byte(dev, runs, a + k) {
      ByteInRun(dev, runs, a + k, i);
    }
  }

  lemma UnbufferedBytes(dev: Device, runs: seq<BufferedRun>, e: Extent, a: nat, n: nat)
    requires WholeOrNone(e, runs)
    requires e.diskOff <= a && a + n <= e.diskOff + e.length
    requires forall i :: 0 <= i < |runs| ==> !runs[i].Holds(a, n)
    ensures forall x :: a <= x < a + n ==> Byte(dev, runs, x) == dev(x)
  {
    forall x | a <= x < a + n ensures Byte(dev, runs, x) == dev(x) {
      ByteOnDevice(dev, runs, x);
    }
  }

  /** The device range `[a, a + n)`, whichever of the buffer and the device holds it. */
  method Fetch(dev: Device, runs: seq<BufferedRun>, e: Extent, a: nat, n: nat) returns (bytes: seq<bv8>)
    requires DisjointRuns(runs) && WholeOrNone(e, runs)
    requires e.diskOff <= a && a + n <= e.diskOff + e.length
    ensures |bytes| == n
    ensures forall k :: 0 <= k < n ==> bytes[k] == Byte(dev, runs, a + k)
  {
    var ok, buf := ReadAt(runs, a, n);
    if ok {
      ghost var i :| 0 <= i < |runs| && runs[i].Holds(a, n) && buf == runs[i].Slice(a, n);
      SliceBytes(dev, runs, i, a, n);
      bytes := buf;
    } else {
      UnbufferedBytes(dev, runs, e, a, n);
      bytes := seq(n, k requires 0 <= k < n => dev(a + k));
    }
  }

  /** READ: the request is clamped to the file's size, and one forward walk over
      the ordered list fills a zeroed buffer.  Every byte is the one the first
      covering extent names, whatever range was asked for. */
  method HandleRead(dev: Device, runs: seq<BufferedRun>, es: seq<Extent>, size: nat, offset: nat, want: nat)
    returns (data: seq<bv8>)
    requires Ordered(es)
    requires DisjointRuns(runs) && forall e :: e in es ==> WholeOrNone(e, runs)
    ensures |data| == if offset >= size then 0 else Min(want, size - offset)
    ensures forall k :: 0 <= k < |data| ==> data[k] == Content(dev, runs, es, offset + k)
  {
    if offset >= size {
      return [];
    }
    var n := Min(want, size - offset);
    data := seq(n, _ => 0 as bv8);
    var pos := 0;
    var i := 0;
    while i < |es| && pos < n && es[i].logOff < offset + n
      invariant 0 <= i <= |es| && 0 <= pos <= n && |data| == n
      invariant pos < n ==> Behind(es, i, offset + pos)
      invariant forall k :: 0 <= k < pos ==> data[k] == Content(dev, runs, es, offset + k)
      invariant forall k :: pos <= k < n ==> data[k] == 0
      decreases |es| - i
    {
      var ext := es[i];
      if ext.End() > offset + pos {
        var from := Max(offset + pos, ext.logOff);
        var cnt := Min(ext.End() - from, offset + n - from);
        HoleBefore(es, i, offset + pos, from);
        var bytes := Fetch(dev, runs, ext, ext.diskOff + (from - ext.logOff), cnt);
        SegmentContent(dev, runs, es, i, offset + pos, from, bytes);
        data := Splice(data, from - offset, bytes);
        pos := from - offset + cnt;
      }
      i := i + 1;
    }
    if pos < n {
      HoleBefore(es, i, offset + pos, offset + n);
    }
  }

  function Splice(data: seq<bv8>, at: nat, bytes: seq<bv8>): (r: seq<bv8>)
    requires at + |bytes| <= |data|
    ensures |r| == |data|
    ensures forall k :: 0 <= k < |r| ==> r[k] == if at <= k < at + |bytes| then bytes[k - at] else data[k]
  {
    data[..at] + bytes + data[at + |bytes|..]
  }

  /** The extent a byte is read from starts no later than any other that covers
      it; of those that start with it, it has the highest sequence, and on a tie
      the highest chunk. */
  lemma ReadWins(es: seq<Extent>, p: nat, o: Extent)
    requires Ordered(es) && o in es && o.Covers(p)
    ensures FirstCovering(es, p).Some?
    ensures var e := FirstCovering(es, p).value;
            && e.logOff <= o.logOff
            && (e.logOff == o.logOff ==> e.sn >= o.sn && (e.sn == o.sn ==> e.chunk >= o.chunk))
  {
    var k :| 0 <= k < |es| && es[k] == o;
    CoveredSomewhere(es, p, k);
    var i := FirstCoveringIndex(es, p);
    if i < k {
      assert ExtentOrder(es[i], es[k]) <= 0;
    }
  }

  lemma {:induction false} CoveredSomewhere(es: seq<Extent>, p: nat, k: nat)
    requires k < |es| && es[k].Covers(p)
    ensures FirstCovering(es, p).Some?
  {
    if !es[0].Covers(p) {
      CoveredSomewhere(es[1..], p, k - 1);
    }
  }

  /** Every extent before index `i` ends at or before the cursor. */
  ghost predicate Behind(es: seq<Extent>, i: nat, pos: nat)
    requires i <= |es|
  {
    forall k :: 0 <= k < i ==> es[k].End() <= pos
  }

  lemma SegmentContent(dev: Device, runs: seq<BufferedRun>, es: seq<Extent>, i: nat, pos: nat, from: nat, bytes: seq<bv8>)
    requires i < |es| && Behind(es, i, pos) && pos <= from && es[i].logOff <= from && from + |bytes| <= es[i].End()
    requires forall k :: 0 <= k < |bytes| ==> bytes[k] == Byte(dev, runs, es[i].diskOff + (from - es[i].logOff) + k)
    ensures forall k :: 0 <= k < |bytes| ==> bytes[k] == Content(dev, runs, es, from + k)
  {
    forall k | 0 <= k < |bytes| ensures bytes[k] == Content(dev, runs, es, from + k) {
      FirstCoveringAt(es, from + k, i);
    }
  }

  /** Bytes between the cursor and the next extent lie in no extent. */
  lemma HoleBefore(es: seq<Extent>, i: nat, pos: nat, from: nat)
    requires Ordered(es) && i <= |es| && pos <= from && Behind(es, i, pos)
    requires i < |es| ==> from <= Max(pos, es[i].logOff)
    ensures forall p :: pos <= p < from ==> FirstCovering(es, p).None?
  {
    forall p | pos <= p < from
      ensures FirstCovering(es, p).None?
    {
      forall j | 0 <= j < |es| ensures !es[j].Covers(p) {
        assert j > i ==> ExtentOrder(es[i], es[j]) <= 0;
      }
    }
  }
}
