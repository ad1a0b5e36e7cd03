/** One node's files on its arenas: deferred writes, flushes, lost replies,
    shrinks, discards and crashes, down to the device byte (internal/ipc/writeop.go,
    internal/ipc/delegate.go, internal/ipc/datapath.go). */
module Volume {
  import opened Common
  import opened Extents
  import opened WritePath
  import Allocation
  import opened Truncation
  import opened DeviceFlush

  type Bytes = nat -> bv8

  // --- The payload of a write -------------------------------------------------

  /** Part of the payload, zero past its end. */
  function Padded(data: seq<bv8>, pos: nat, len: nat): (r: seq<bv8>)
    ensures |r| == len
  {
    seq(len, k requires 0 <= k < len => if pos + k < |data| then data[pos + k] else 0)
  }

  /** The payload cut into one slice per run. */
  function PayloadRuns(runs: seq<Run>, data: seq<bv8>, pos: nat): seq<BufferedRun> {
    if runs == [] then []
    else [BufferedRun(runs[0].diskOff, Padded(data, pos, runs[0].length))]
         + PayloadRuns(runs[1..], data, pos + runs[0].length)
  }

  /** Copies the payload into per-run slices. */
  method BufferedPayload(runs: seq<Run>, data: seq<bv8>) returns (r: seq<BufferedRun>)
    ensures r == PayloadRuns(runs, data, 0)
  {
    r := [];
    var pos: nat := 0;
    for i := 0 to |runs|
      invariant r + PayloadRuns(runs[i..], data, pos) == PayloadRuns(runs, data, 0)
    {
      assert runs[i..][1..] == runs[i + 1..];
      r := r + [BufferedRun(runs[i].diskOff, Padded(data, pos, runs[i].length))];
      pos := pos + runs[i].length;
    }
  }

  function RamBlocks(ram: seq<BufferedRun>): set<nat> {
    if ram == [] then {} else RangeBlocks(ram[0].diskOff, |ram[0].buf|) + RamBlocks(ram[1..])
  }

  predicate AlignedRuns(ram: seq<BufferedRun>) {
    forall i :: 0 <= i < |ram| ==> Aligned(ram[i].diskOff) && Aligned(|ram[i].buf|) && |ram[i].buf| > 0
  }

  /** A byte of a run lies on one of its blocks. */
  lemma ByteOnBlock(off: nat, len: nat, a: nat)
    requires Aligned(off) && off <= a < off + len
    ensures a / BLOCK in RangeBlocks(off, len)
  {
  }

  /** Off the buffered blocks the device answers. */
  lemma {:induction false} OffTheRuns(dev: Device, ram: seq<BufferedRun>, a: nat)
    requires AlignedRuns(ram) && a / BLOCK !in RamBlocks(ram)
    ensures Byte(dev, ram, a) == dev(a)
  {
    if ram != [] {
      if ram[0].Has(a) {
        ByteOnBlock(ram[0].diskOff, |ram[0].buf|, a);
      }
      OffTheRuns(dev, ram[1..], a);
    }
  }

  lemma {:induction false} PayloadBlocks(runs: seq<Run>, data: seq<bv8>, pos: nat, left: nat)
    requires Fits(runs, left)
    ensures RamBlocks(PayloadRuns(runs, data, pos)) == RunBlocks(runs) && AlignedRuns(PayloadRuns(runs, data, pos))
  {
    if runs != [] {
      FirstNew(runs, left);
      PayloadBlocks(runs[1..], data, pos + runs[0].length, left - Min(runs[0].length, left));
      var rest := PayloadRuns(runs[1..], data, pos + runs[0].length);
      assert PayloadRuns(runs, data, pos)[1..] == rest;
    }
  }

  function Total(runs: seq<Run>): nat {
    if runs == [] then 0 else runs[0].length + Total(runs[1..])
  }

  lemma {:induction false} FitsTotal(runs: seq<Run>, left: nat)
    requires Fits(runs, left)
    ensures left <= Total(runs)
  {
    if runs != [] {
      FirstNew(runs, left);
      FitsTotal(runs[1..], left - Min(runs[0].length, left));
    }
  }

  lemma {:induction false} AddrInBlocks(runs: seq<Run>, left: nat, k: nat)
    requires Fits(runs, left) && k < Total(runs)
    ensures RunAddr(runs, k) / BLOCK in RunBlocks(runs)
  {
    if k < runs[0].length {
      ByteOnBlock(runs[0].diskOff, runs[0].length, runs[0].diskOff + k);
    } else {
      FirstNew(runs, left);
      AddrInBlocks(runs[1..], left - Min(runs[0].length, left), k - runs[0].length);
    }
  }

  lemma ByteOfFirst(dev: Device, r: BufferedRun, rest: seq<BufferedRun>, a: nat)
    requires Aligned(r.diskOff)
    ensures r.Has(a) ==> Byte(dev, [r] + rest, a) == r.buf[a - r.diskOff]
    ensures a / BLOCK !in RangeBlocks(r.diskOff, |r.buf|) ==> Byte(dev, [r] + rest, a) == Byte(dev, rest, a)
  {
    assert ([r] + rest)[1..] == rest;
    if r.Has(a) {
      ByteOnBlock(r.diskOff, |r.buf|, a);
    }
  }

  function PayloadAt(data: seq<bv8>, k: nat): bv8 {
    if k < |data| then data[k] else 0
  }

  /** The first run's payload comes first; behind it, the others answer. */
  lemma PayloadOfFirst(dev: Device, runs: seq<Run>, data: seq<bv8>, pos: nat, left: nat, a: nat)
    requires Fits(runs, left) && runs != []
    ensures runs[0].diskOff <= a < runs[0].diskOff + runs[0].length ==>
              Byte(dev, PayloadRuns(runs, data, pos), a) == PayloadAt(data, pos + (a - runs[0].diskOff))
    ensures a / BLOCK !in RangeBlocks(runs[0].diskOff, runs[0].length) ==>
              Byte(dev, PayloadRuns(runs, data, pos), a) == Byte(dev, PayloadRuns(runs[1..], data, pos + runs[0].length), a)
  {
    var r := BufferedRun(runs[0].diskOff, Padded(data, pos, runs[0].length));
    var rest := PayloadRuns(runs[1..], data, pos + runs[0].length);
    assert PayloadRuns(runs, data, pos) == [r] + rest;
    ByteOfFirst(dev, r, rest, a);
  }

  /** What is needed of runs, and of a byte of theirs, to find its payload. */
  ghost predicate Carries(runs: seq<Run>, left: nat, k: nat) {
    Fits(runs, left) && DisjointSpans(runs) && k < Total(runs)
  }

  lemma LaterCarries(runs: seq<Run>, left: nat, k: nat)
    requires Carries(runs, left, k) && runs != [] && runs[0].length <= k
    ensures Carries(runs[1..], left - Min(runs[0].length, left), k - runs[0].length)
  {
  }

  lemma LaterPayload(runs: seq<Run>, left: nat, k: nat)
    requires Carries(runs, left, k) && runs != [] && runs[0].length <= k
    ensures RunAddr(runs, k) == RunAddr(runs[1..], k - runs[0].length)
    ensures RunAddr(runs, k) / BLOCK !in RangeBlocks(runs[0].diskOff, runs[0].length)
  {
    LaterCarries(runs, left, k);
    FirstNew(runs, left);
    AddrInBlocks(runs[1..], left - Min(runs[0].length, left), k - runs[0].length);
  }

  /** The payload of the runs answers for byte `k` at its address. */
  ghost predicate Answers(dev: Device, runs: seq<Run>, data: seq<bv8>, pos: nat, k: nat) {
    Byte(dev, PayloadRuns(runs, data, pos), RunAddr(runs, k)) == PayloadAt(data, pos + k)
  }

  lemma PayloadBehind(dev: Device, runs: seq<Run>, data: seq<bv8>, pos: nat, left: nat, k: nat)
    requires Carries(runs, left, k) && runs != [] && runs[0].length <= k
    requires Answers(dev, runs[1..], data, pos + runs[0].length, k - runs[0].length)
    ensures Answers(dev, runs, data, pos, k)
  {
    LaterPayload(runs, left, k);
    PayloadOfFirst(dev, runs, data, pos, left, RunAddr(runs, k));
  }

  lemma PayloadInFirst(dev: Device, runs: seq<Run>, data: seq<bv8>, pos: nat, left: nat, k: nat)
    requires Fits(runs, left) && runs != [] && k < runs[0].length
    ensures Answers(dev, runs, data, pos, k)
  {
    PayloadOfFirst(dev, runs, data, pos, left, runs[0].diskOff + k);
  }

  /** The payload's bytes are where the new extents look for them. */
  lemma {:induction false} PayloadByte(dev: Device, runs: seq<Run>, data: seq<bv8>, pos: nat, left: nat, k: nat)
    requires Carries(runs, left, k)
    ensures Answers(dev, runs, data, pos, k)
  {
    if k < runs[0].length {
      PayloadInFirst(dev, runs, data, pos, left, k);
    } else {
      LaterCarries(runs, left, k);
      PayloadByte(dev, runs[1..], data, pos + runs[0].length, left - Min(runs[0].length, left), k - runs[0].length);
      PayloadBehind(dev, runs, data, pos, left, k);
    }
  }

  // --- One file -----------------------------------------------------------------

  /** A file as published and as this node sees it: the blocks its buffered
      writes buried and owe to the allocator, those they reserved, the payload
      still in RAM, and, for the record, whether a flush of the buffer committed
      unseen and whether anything was buffered since, and the contents now and as
      last published. */
  datatype File = File(pub: seq<Extent>, view: seq<Extent>, owed: set<nat>, runs: set<nat>, ram: seq<BufferedRun>,
                       lost: bool, wedged: bool, cur: Bytes, saved: Bytes)

  function Claim(f: File): set<nat> {
    AllBlocks(f.view) + f.owed
  }

  predicate Homed(arenas: set<nat>, es: seq<Extent>) {
    forall i :: 0 <= i < |es| ==> InArena(arenas, es[i].diskOff, es[i].length) && es[i].End() <= MAX_OFF
  }

  ghost predicate Reads(dev: Device, ram: seq<BufferedRun>, es: seq<Extent>, bytes: Bytes) {
    forall p: nat :: Content(dev, ram, es, p) == bytes(p)
  }

  ghost predicate Layout(arenas: set<nat>, f: File) {
    && Good(f.view) && Homed(arenas, f.view)
    && Good(f.pub) && Homed(arenas, f.pub)
    && AllBlocks(f.view) !! f.owed
    && AllBlocks(f.pub) <= Claim(f)
    && RamBlocks(f.ram) <= Claim(f) && RamBlocks(f.ram) !! AllBlocks(f.pub)
    && AlignedRuns(f.ram) && Whole(f.view, f.ram)
  }

  /** Buffered runs are apart, and an extent lies in one of them or meets none. */
  ghost predicate Whole(es: seq<Extent>, ram: seq<BufferedRun>) {
    DisjointRuns(ram) && forall e :: e in es ==> WholeOrNone(e, ram)
  }

  ghost predicate Served(dev: Device, f: File) {
    Reads(dev, f.ram, f.view, f.cur) && Reads(dev, [], f.pub, f.saved)
  }

  /** A covered byte lies on one of its extent's blocks. */
  lemma CoveredOnBlock(es: seq<Extent>, p: nat)
    requires AllWell(es) && FirstCovering(es, p).Some?
    ensures FirstCovering(es, p).value.Addr(p) / BLOCK in AllBlocks(es)
  {
    var i := FirstCoveringIndex(es, p);
    ByteOnBlock(es[i].diskOff, es[i].length, es[i].Addr(p));
    OneOfAllBlocks(es, i);
  }

  /** Two devices that agree on a file's blocks read it alike. */
  lemma ReadsAlike(dev: Device, ram: seq<BufferedRun>, dev': Device, ram': seq<BufferedRun>, es: seq<Extent>, bytes: Bytes)
    requires AllWell(es) && Reads(dev, ram, es, bytes)
    requires forall a: nat :: a / BLOCK in AllBlocks(es) ==> Byte(dev', ram', a) == Byte(dev, ram, a)
    ensures Reads(dev', ram', es, bytes)
  {
    forall p: nat ensures Content(dev', ram', es, p) == bytes(p) {
      assert Content(dev, ram, es, p) == bytes(p);
      if FirstCovering(es, p).Some? {
        CoveredOnBlock(es, p);
      }
    }
  }

  lemma {:induction false} RamOfJoin(a: seq<BufferedRun>, b: seq<BufferedRun>)
    ensures RamBlocks(a + b) == RamBlocks(a) + RamBlocks(b)
  {
    if a == [] {
      assert a + b == b;
    } else {
      assert (a + b)[1..] == a[1..] + b;
      RamOfJoin(a[1..], b);
    }
  }

  lemma {:induction false} SameUnderRuns(dev: Device, dev': Device, ram: seq<BufferedRun>, a: nat)
    requires dev(a) == dev'(a)
    ensures Byte(dev, ram, a) == Byte(dev', ram, a)
  {
    if ram != [] {
      SameUnderRuns(dev, dev', ram[1..], a);
    }
  }

  // What is in RAM.

  lemma {:induction false} RunInRam(ram: seq<BufferedRun>, i: nat)
    requires i < |ram|
    ensures RangeBlocks(ram[i].diskOff, |ram[i].buf|) <= RamBlocks(ram)
  {
    if i > 0 {
      RunInRam(ram[1..], i - 1);
    }
  }

  /** Ranges on different blocks do not meet. */
  lemma RangesApart(x: BufferedRun, y: BufferedRun)
    requires Aligned(x.diskOff) && Aligned(|x.buf|) && |x.buf| > 0 && Aligned(y.diskOff) && Aligned(|y.buf|) && |y.buf| > 0
    requires RangeBlocks(x.diskOff, |x.buf|) !! RangeBlocks(y.diskOff, |y.buf|)
    ensures x.End() <= y.diskOff || y.End() <= x.diskOff
  {
    ByteOnBlockIf(x.diskOff, |x.buf|, y.diskOff);
    ByteOnBlockIf(y.diskOff, |y.buf|, y.diskOff);
    ByteOnBlockIf(x.diskOff, |x.buf|, x.diskOff);
    ByteOnBlockIf(y.diskOff, |y.buf|, x.diskOff);
  }

  lemma ByteOnBlockIf(off: nat, len: nat, a: nat)
    requires Aligned(off)
    ensures off <= a < off + len ==> a / BLOCK in RangeBlocks(off, len)
  {
  }

  lemma JoinedRunsApart(a: seq<BufferedRun>, b: seq<BufferedRun>)
    requires DisjointRuns(a) && DisjointRuns(b) && AlignedRuns(a) && AlignedRuns(b) && RamBlocks(a) !! RamBlocks(b)
    ensures DisjointRuns(a + b)
  {
    var c := a + b;
    forall i, j | 0 <= i < j < |c| ensures c[i].End() <= c[j].diskOff || c[j].End() <= c[i].diskOff {
      if i < |a| <= j {
        RunInRam(a, i);
        RunInRam(b, j - |a|);
        RangesApart(a[i], b[j - |a|]);
      } else if i >= |a| {
        assert c[i] == b[i - |a|] && c[j] == b[j - |a|];
      }
    }
  }

  lemma {:induction false} PayloadApart(runs: seq<Run>, data: seq<bv8>, pos: nat, left: nat)
    requires Fits(runs, left) && DisjointSpans(runs)
    ensures DisjointRuns(PayloadRuns(runs, data, pos))
  {
    if runs != [] {
      FirstNew(runs, left);
      var r := BufferedRun(runs[0].diskOff, Padded(data, pos, runs[0].length));
      var rest := PayloadRuns(runs[1..], data, pos + runs[0].length);
      PayloadApart(runs[1..], data, pos + runs[0].length, left - Min(runs[0].length, left));
      PayloadBlocks(runs[1..], data, pos + runs[0].length, left - Min(runs[0].length, left));
      assert RamBlocks([r]) == RangeBlocks(runs[0].diskOff, runs[0].length);
      JoinedRunsApart([r], rest);
    }
  }

  lemma MeetsNone(e: Extent, ram: seq<BufferedRun>)
    requires WellFormed(e) && AlignedRuns(ram) && Blocks(e) !! RamBlocks(ram)
    ensures forall i, a :: 0 <= i < |ram| && e.diskOff <= a < e.diskOff + e.length ==> !ram[i].Has(a)
  {
    forall i, a | 0 <= i < |ram| && e.diskOff <= a < e.diskOff + e.length ensures !ram[i].Has(a) {
      if ram[i].Has(a) {
        ByteOnBlock(e.diskOff, e.length, a);
        ByteOnBlock(ram[i].diskOff, |ram[i].buf|, a);
        RunInRam(ram, i);
      }
    }
  }

  /** More runs, off the extent's blocks, change nothing for it. */
  lemma WholeWithMore(e: Extent, ram: seq<BufferedRun>, more: seq<BufferedRun>)
    requires WellFormed(e) && WholeOrNone(e, ram) && AlignedRuns(more) && Blocks(e) !! RamBlocks(more)
    ensures WholeOrNone(e, ram + more)
  {
    MeetsNone(e, more);
    if i :| 0 <= i < |ram| && ram[i].Holds(e.diskOff, e.length) {
      assert (ram + more)[i].Holds(e.diskOff, e.length);
    }
  }

  /** A piece of an extent is in RAM, or not, with the whole of it. */
  lemma PieceWhole(x: Extent, ext: Extent, start: nat, end: nat, ram: seq<BufferedRun>)
    requires WellFormed(x) && WellFormed(ext) && IsPiece(x, ext, start, end) && WholeOrNone(ext, ram)
    ensures WholeOrNone(x, ram)
  {
    assert ext.diskOff <= x.diskOff && x.diskOff + x.length <= ext.diskOff + ext.length;
    if i :| 0 <= i < |ram| && ram[i].Holds(ext.diskOff, ext.length) {
      assert ram[i].Holds(x.diskOff, x.length);
    }
  }

  lemma {:induction false} NewInPayload(runs: seq<Run>, off: nat, left: nat, chunk: nat, sn: nat, gen: nat, node: Node,
                                        data: seq<bv8>, pos: nat, e: Extent) returns (i: nat)
    requires Fits(runs, left) && e in NewExtents(runs, off, left, chunk, sn, gen, node)
    ensures i < |PayloadRuns(runs, data, pos)| && PayloadRuns(runs, data, pos)[i].Holds(e.diskOff, e.length)
  {
    FirstNew(runs, left);
    var n := Min(runs[0].length, left);
    if e == Extent(chunk, sn, node, gen, off, runs[0].diskOff, n) {
      i := 0;
    } else {
      var j := NewInPayload(runs[1..], off + n, left - n, chunk + 1, sn, gen, node, data, pos + runs[0].length, e);
      i := j + 1;
    }
  }

  // Writing.

  /** What the allocator and the counters give a write. */
  ghost predicate CanWrite(arenas: set<nat>, used: set<nat>, f: File, w: Write, data: seq<bv8>, after: seq<Extent>) {
    && Aligned(w.off) && w.len > 0 && w.End() <= MAX_OFF && |data| == w.len
    && Fits(w.runs, w.len) && DisjointSpans(w.runs) && RunBlocks(w.runs) !! used
    && (forall i :: 0 <= i < |w.runs| ==> InArena(arenas, w.runs[i].diskOff, w.runs[i].length))
    && ChunksBelow(f.view, w.chunk) && (forall i :: 0 <= i < |f.view| ==> f.view[i].sn < w.sn)
    && Leaves(arenas, f.view, w, after)
  }

  function Overlay(bytes: Bytes, off: nat, data: seq<bv8>): Bytes {
    (p: nat) => if off <= p < off + |data| then data[p - off] else bytes(p)
  }

  function WrittenFile(arenas: set<nat>, f: File, w: Write, data: seq<bv8>, buffered: bool, after: seq<Extent>): File {
    f.(view := after,
       owed := f.owed + AllFreed(arenas, f.view, w.off, w.End()),
       runs := f.runs + RunBlocks(w.runs),
       wedged := f.lost,
       ram := if buffered then f.ram + PayloadRuns(w.runs, data, 0) else f.ram,
       cur := Overlay(f.cur, w.off, data))
  }

  function WrittenDev(dev: Device, w: Write, data: seq<bv8>, buffered: bool): Device {
    if buffered then dev else Through(dev, PayloadRuns(w.runs, data, 0))
  }

  lemma IsPlannable(arenas: set<nat>, used: set<nat>, f: File, w: Write, data: seq<bv8>, after: seq<Extent>)
    requires Layout(arenas, f) && Claim(f) <= used && CanWrite(arenas, used, f, w, data, after)
    ensures Plannable(arenas, f.view, w)
  {
  }

  lemma PieceStaysHome(arenas: set<nat>, x: Extent, ext: Extent, start: nat, end: nat)
    requires WellFormed(x) && WellFormed(ext) && InArena(arenas, ext.diskOff, ext.length) && ext.End() <= MAX_OFF
    requires IsPiece(x, ext, start, end)
    ensures InArena(arenas, x.diskOff, x.length) && x.End() <= MAX_OFF
  {
    assert ext.diskOff <= x.diskOff && x.diskOff + x.length <= ext.diskOff + ext.length;
    Between(ext.diskOff, x.diskOff, x.diskOff + x.length - 1, ext.diskOff + ext.length - 1);
  }

  lemma Between(a: nat, b: nat, c: nat, d: nat)
    requires a <= b <= c <= d && a / ARENA == d / ARENA
    ensures b / ARENA == a / ARENA && c / ARENA == a / ARENA
  {
  }

  lemma {:induction false} NewAreHome(arenas: set<nat>, runs: seq<Run>, off: nat, left: nat, chunk: nat, sn: nat, gen: nat, node: Node)
    requires Fits(runs, left) && off + left <= MAX_OFF
    requires forall i :: 0 <= i < |runs| ==> InArena(arenas, runs[i].diskOff, runs[i].length)
    ensures forall e :: e in NewExtents(runs, off, left, chunk, sn, gen, node) ==>
              InArena(arenas, e.diskOff, e.length) && e.End() <= MAX_OFF
  {
    if runs != [] {
      FirstNew(runs, left);
      var n := Min(runs[0].length, left);
      Between(runs[0].diskOff, runs[0].diskOff, runs[0].diskOff + n - 1, runs[0].diskOff + runs[0].length - 1);
      NewAreHome(arenas, runs[1..], off + n, left - n, chunk + 1, sn, gen, node);
    }
  }

  lemma PiecesAreHome(arenas: set<nat>, es: seq<Extent>, start: nat, end: nat, next: nat)
    requires AllWell(es) && Homed(arenas, es) && Aligned(start) && start < end && AllOwned(arenas, es, start, end)
    ensures forall e :: e in Pieces(arenas, es, start, end, next) ==> InArena(arenas, e.diskOff, e.length) && e.End() <= MAX_OFF
  {
    PiecesSurvive(arenas, es, start, end, next);
    forall e | e in Pieces(arenas, es, start, end, next)
      ensures InArena(arenas, e.diskOff, e.length) && e.End() <= MAX_OFF
    {
      var k :| 0 <= k < |es| && IsPiece(e, es[k], start, end) && (e.chunk == es[k].chunk || e.chunk >= next);
      PieceStaysHome(arenas, e, es[k], start, end);
    }
  }

  lemma WriteHomed(arenas: set<nat>, es: seq<Extent>, w: Write, after: seq<Extent>)
    requires AllWell(es) && Homed(arenas, es) && Plannable(arenas, es, w) && Leaves(arenas, es, w, after) && w.End() <= MAX_OFF
    requires forall i :: 0 <= i < |w.runs| ==> InArena(arenas, w.runs[i].diskOff, w.runs[i].length)
    ensures Homed(arenas, after)
  {
    NewAreHome(arenas, w.runs, w.off, w.len, w.chunk, w.sn, w.gen, w.node);
    PiecesAreHome(arenas, es, w.off, w.End(), w.chunk + |w.runs|);
    forall i | 0 <= i < |after| ensures InArena(arenas, after[i].diskOff, after[i].length) && after[i].End() <= MAX_OFF {
      assert after[i] in after;
    }
  }

  /** The blocks of a written file. */
  lemma WriteClaims(arenas: set<nat>, used: set<nat>, f: File, w: Write, data: seq<bv8>, buffered: bool, after: seq<Extent>)
    requires Layout(arenas, f) && Claim(f) <= used && CanWrite(arenas, used, f, w, data, after)
    ensures var f' := WrittenFile(arenas, f, w, data, buffered, after);
            && Claim(f') == Claim(f) + RunBlocks(w.runs) && AllBlocks(f'.view) !! f'.owed
            && RamBlocks(f'.ram) <= RamBlocks(f.ram) + RunBlocks(w.runs) && AlignedRuns(f'.ram)
  {
    var f' := WrittenFile(arenas, f, w, data, buffered, after);
    var whole, freed, new' := AllBlocks(f.view), AllFreed(arenas, f.view, w.off, w.End()), RunBlocks(w.runs);
    IsPlannable(arenas, used, f, w, data, after);
    WriteBlocks(arenas, f.view, w, after);
    assert AllBlocks(after) == whole - freed + new' && freed <= whole;
    PayloadBlocks(w.runs, data, 0, w.len);
    RamOfJoin(f.ram, PayloadRuns(w.runs, data, 0));
  }

  lemma NewWhole(f: File, arenas: set<nat>, w: Write, data: seq<bv8>, buffered: bool, after: seq<Extent>, e: Extent)
    requires Aligned(w.off) && Fits(w.runs, w.len) && AlignedRuns(f.ram) && RamBlocks(f.ram) !! RunBlocks(w.runs) && e in w.New()
    ensures WholeOrNone(e, WrittenFile(arenas, f, w, data, buffered, after).ram)
  {
    if buffered {
      var i := NewInPayload(w.runs, w.off, w.len, w.chunk, w.sn, w.gen, w.node, data, 0, e);
      assert (f.ram + PayloadRuns(w.runs, data, 0))[|f.ram| + i].Holds(e.diskOff, e.length);
    } else {
      NewAreNew(w.runs, w.off, w.len, w.chunk, w.sn, w.gen, w.node);
      MeetsNone(e, f.ram);
    }
  }

  lemma PieceStaysWhole(f: File, arenas: set<nat>, w: Write, data: seq<bv8>, buffered: bool, after: seq<Extent>, e: Extent, k: nat)
    requires Fits(w.runs, w.len) && k < |f.view| && AllWell(f.view) && WellFormed(e) && IsPiece(e, f.view[k], w.off, w.End())
    requires WholeOrNone(f.view[k], f.ram) && Blocks(f.view[k]) !! RunBlocks(w.runs)
    ensures WholeOrNone(e, WrittenFile(arenas, f, w, data, buffered, after).ram)
  {
    PieceWhole(e, f.view[k], w.off, w.End(), f.ram);
    PieceBlocks(e, f.view[k], w.off, w.End());
    PayloadBlocks(w.runs, data, 0, w.len);
    WholeWithMore(e, f.ram, PayloadRuns(w.runs, data, 0));
  }

  lemma PieceSource(arenas: set<nat>, es: seq<Extent>, w: Write, e: Extent) returns (k: nat)
    requires AllWell(es) && Plannable(arenas, es, w)
    requires e in Pieces(arenas, es, w.off, w.End(), w.chunk + |w.runs|)
    ensures k < |es| && WellFormed(e) && IsPiece(e, es[k], w.off, w.End()) && Blocks(es[k]) !! RunBlocks(w.runs)
  {
    PiecesSurvive(arenas, es, w.off, w.End(), w.chunk + |w.runs|);
    k :| 0 <= k < |es| && IsPiece(e, es[k], w.off, w.End())
         && (e.chunk == es[k].chunk || e.chunk >= w.chunk + |w.runs|);
    OneOfAllBlocks(es, k);
  }

  lemma PiecesStayWhole(f: File, arenas: set<nat>, w: Write, data: seq<bv8>, buffered: bool, after: seq<Extent>, e: Extent)
    requires AllWell(f.view) && Plannable(arenas, f.view, w) && Whole(f.view, f.ram)
    requires e in Pieces(arenas, f.view, w.off, w.End(), w.chunk + |w.runs|)
    ensures WholeOrNone(e, WrittenFile(arenas, f, w, data, buffered, after).ram)
  {
    var k := PieceSource(arenas, f.view, w, e);
    assert f.view[k] in f.view;
    PieceStaysWhole(f, arenas, w, data, buffered, after, e, k);
  }

  lemma WriteWhole(arenas: set<nat>, f: File, w: Write, data: seq<bv8>, buffered: bool, after: seq<Extent>)
    requires AllWell(f.view) && Plannable(arenas, f.view, w) && Leaves(arenas, f.view, w, after) && Whole(f.view, f.ram)
    requires AlignedRuns(f.ram) && RamBlocks(f.ram) !! RunBlocks(w.runs)
    ensures Whole(after, WrittenFile(arenas, f, w, data, buffered, after).ram)
  {
    PayloadBlocks(w.runs, data, 0, w.len);
    PayloadApart(w.runs, data, 0, w.len);
    JoinedRunsApart(f.ram, PayloadRuns(w.runs, data, 0));
    forall e | e in after ensures WholeOrNone(e, WrittenFile(arenas, f, w, data, buffered, after).ram) {
      if e in w.New() {
        NewWhole(f, arenas, w, data, buffered, after, e);
      } else {
        PiecesStayWhole(f, arenas, w, data, buffered, after, e);
      }
    }
  }

  lemma WriteLayout(arenas: set<nat>, used: set<nat>, f: File, w: Write, data: seq<bv8>, buffered: bool, after: seq<Extent>)
    requires Layout(arenas, f) && Claim(f) <= used && CanWrite(arenas, used, f, w, data, after)
    ensures Layout(arenas, WrittenFile(arenas, f, w, data, buffered, after))
  {
    IsPlannable(arenas, used, f, w, data, after);
    WriteKeepsGood(arenas, f.view, w, after);
    WriteHomed(arenas, f.view, w, after);
    WriteWhole(arenas, f, w, data, buffered, after);
    WriteClaims(arenas, used, f, w, data, buffered, after);
  }

  /** With the payload in RAM or on the device, the node sees the same bytes. */
  lemma SeenByte(dev: Device, f: File, arenas: set<nat>, w: Write, data: seq<bv8>, buffered: bool, after: seq<Extent>, a: nat)
    ensures Byte(WrittenDev(dev, w, data, buffered), WrittenFile(arenas, f, w, data, buffered, after).ram, a)
            == Byte(Through(dev, PayloadRuns(w.runs, data, 0)), f.ram, a)
  {
    ByteOfJoin(dev, f.ram, PayloadRuns(w.runs, data, 0), a);
  }

  /** Off the write's runs nothing changes. */
  lemma ElsewhereByte(dev: Device, ram: seq<BufferedRun>, w: Write, data: seq<bv8>, a: nat)
    requires Fits(w.runs, w.len) && a / BLOCK !in RunBlocks(w.runs)
    ensures Through(dev, PayloadRuns(w.runs, data, 0))(a) == dev(a)
    ensures Byte(Through(dev, PayloadRuns(w.runs, data, 0)), ram, a) == Byte(dev, ram, a)
  {
    var payload := PayloadRuns(w.runs, data, 0);
    PayloadBlocks(w.runs, data, 0, w.len);
    OffTheRuns(dev, payload, a);
    SameUnderRuns(Through(dev, payload), dev, ram, a);
  }

  /** The write's own bytes are read from its runs. */
  lemma OwnByte(dev: Device, ram: seq<BufferedRun>, w: Write, data: seq<bv8>, k: nat)
    requires Fits(w.runs, w.len) && DisjointSpans(w.runs) && k < w.len == |data|
    requires AlignedRuns(ram) && RamBlocks(ram) !! RunBlocks(w.runs)
    ensures Byte(Through(dev, PayloadRuns(w.runs, data, 0)), ram, RunAddr(w.runs, k)) == data[k]
  {
    var payload, at := PayloadRuns(w.runs, data, 0), RunAddr(w.runs, k);
    FitsTotal(w.runs, w.len);
    AddrInBlocks(w.runs, w.len, k);
    OffTheRuns(Through(dev, payload), ram, at);
    PayloadByte(dev, w.runs, data, 0, w.len, k);
  }

  lemma ContentVia(dev: Device, ram: seq<BufferedRun>, es: seq<Extent>, p: nat, at: nat)
    requires FirstCovering(es, p).Some? && FirstCovering(es, p).value.Addr(p) == at
    ensures Content(dev, ram, es, p) == Byte(dev, ram, at)
  {
  }

  /** A planned write and the list it leaves. */
  ghost predicate Sound(arenas: set<nat>, es: seq<Extent>, w: Write, after: seq<Extent>) {
    Good(es) && Plannable(arenas, es, w) && Good(after) && Leaves(arenas, es, w, after)
  }

  /** The payload is where the write's runs say. */
  ghost predicate PayloadIn(seen: Device, w: Write, data: seq<bv8>) {
    |data| == w.len && forall k :: 0 <= k < w.len ==> seen(RunAddr(w.runs, k)) == data[k]
  }

  ghost predicate AgreeOn(dev: Device, seen: Device, blocks: set<nat>) {
    forall a: nat :: a / BLOCK in blocks ==> seen(a) == dev(a)
  }

  lemma ContentInside(arenas: set<nat>, seen: Device, es: seq<Extent>, w: Write, data: seq<bv8>, after: seq<Extent>, p: nat)
    requires Sound(arenas, es, w, after) && PayloadIn(seen, w, data) && w.off <= p < w.End()
    ensures Content(seen, [], after, p) == data[p - w.off]
  {
    WrittenBytes(arenas, es, w, after, p);
    ContentVia(seen, [], after, p, RunAddr(w.runs, p - w.off));
  }

  lemma ContentOutside(arenas: set<nat>, dev: Device, seen: Device, es: seq<Extent>, w: Write, after: seq<Extent>, p: nat)
    requires Sound(arenas, es, w, after) && AgreeOn(dev, seen, AllBlocks(es)) && !(w.off <= p < w.End())
    ensures Content(seen, [], after, p) == Content(dev, [], es, p)
  {
    OtherBytes(arenas, es, w, after, p);
    if FirstCovering(es, p).Some? {
      var at := FirstCovering(es, p).value.Addr(p);
      CoveredOnBlock(es, p);
      ContentVia(dev, [], es, p, at);
      ContentVia(seen, [], after, p, at);
    }
  }

  lemma WrittenAt(arenas: set<nat>, dev: Device, seen: Device, es: seq<Extent>, w: Write, data: seq<bv8>, after: seq<Extent>, bytes: Bytes, p: nat)
    requires Sound(arenas, es, w, after) && PayloadIn(seen, w, data) && AgreeOn(dev, seen, AllBlocks(es))
    requires Content(dev, [], es, p) == bytes(p)
    ensures Content(seen, [], after, p) == Overlay(bytes, w.off, data)(p)
  {
    if w.off <= p < w.End() {
      ContentInside(arenas, seen, es, w, data, after, p);
    } else {
      ContentOutside(arenas, dev, seen, es, w, after, p);
    }
  }

  /** What the node reads after a write: the old contents under the new bytes. */
  lemma WrittenReads(arenas: set<nat>, dev: Device, seen: Device, es: seq<Extent>, w: Write, data: seq<bv8>, after: seq<Extent>, bytes: Bytes)
    requires Sound(arenas, es, w, after) && PayloadIn(seen, w, data) && AgreeOn(dev, seen, AllBlocks(es))
    requires Reads(dev, [], es, bytes)
    ensures Reads(seen, [], after, Overlay(bytes, w.off, data))
  {
    forall p: nat ensures Content(seen, [], after, p) == Overlay(bytes, w.off, data)(p) {
      WrittenAt(arenas, dev, seen, es, w, data, after, bytes, p);
    }
  }

  /** Reading through the runs is reading the device they would leave. */
  lemma ReadsThrough(dev: Device, ram: seq<BufferedRun>, es: seq<Extent>, bytes: Bytes)
    ensures Reads(dev, ram, es, bytes) <==> Reads(Through(dev, ram), [], es, bytes)
  {
    forall p: nat ensures Content(dev, ram, es, p) == Content(Through(dev, ram), [], es, p) {
    }
  }

  lemma WriteServed(arenas: set<nat>, used: set<nat>, dev: Device, f: File, w: Write, data: seq<bv8>, buffered: bool, after: seq<Extent>)
    requires Layout(arenas, f) && Served(dev, f) && Claim(f) <= used && CanWrite(arenas, used, f, w, data, after)
    ensures Served(WrittenDev(dev, w, data, buffered), WrittenFile(arenas, f, w, data, buffered, after))
  {
    var dev', f' := WrittenDev(dev, w, data, buffered), WrittenFile(arenas, f, w, data, buffered, after);
    var seen := Through(dev', f'.ram);
    IsPlannable(arenas, used, f, w, data, after);
    WriteKeepsGood(arenas, f.view, w, after);
    SeenAfter(dev, f, arenas, w, data, buffered, after);
    ReadsThrough(dev, f.ram, f.view, f.cur);
    WrittenReads(arenas, Through(dev, f.ram), seen, f.view, w, data, after, f.cur);
    ReadsThrough(dev', f'.ram, after, f'.cur);
    WriteLeavesOthers(dev, w, data, buffered, f.pub, [], f.saved);
  }

  /** With the payload in RAM or on the device, the node sees it on the write's
      runs, and what it saw before on the file's blocks. */
  lemma SeenAfter(dev: Device, f: File, arenas: set<nat>, w: Write, data: seq<bv8>, buffered: bool, after: seq<Extent>)
    requires Fits(w.runs, w.len) && DisjointSpans(w.runs) && |data| == w.len
    requires AlignedRuns(f.ram) && RamBlocks(f.ram) !! RunBlocks(w.runs) && AllBlocks(f.view) !! RunBlocks(w.runs)
    ensures var seen := Through(WrittenDev(dev, w, data, buffered), WrittenFile(arenas, f, w, data, buffered, after).ram);
            PayloadIn(seen, w, data) && AgreeOn(Through(dev, f.ram), seen, AllBlocks(f.view))
  {
    var seen := Through(WrittenDev(dev, w, data, buffered), WrittenFile(arenas, f, w, data, buffered, after).ram);
    forall k | 0 <= k < w.len ensures seen(RunAddr(w.runs, k)) == data[k] {
      OwnByte(dev, f.ram, w, data, k);
      SeenByte(dev, f, arenas, w, data, buffered, after, RunAddr(w.runs, k));
    }
    forall a: nat | a / BLOCK in AllBlocks(f.view) ensures seen(a) == Through(dev, f.ram)(a) {
      ElsewhereByte(dev, f.ram, w, data, a);
      SeenByte(dev, f, arenas, w, data, buffered, after, a);
    }
  }

  /** A write changes no byte off its runs. */
  lemma WriteLeavesOthers(dev: Device, w: Write, data: seq<bv8>, buffered: bool, es: seq<Extent>, ram: seq<BufferedRun>, bytes: Bytes)
    requires AllWell(es) && Reads(dev, ram, es, bytes) && Fits(w.runs, w.len) && RunBlocks(w.runs) !! AllBlocks(es)
    ensures Reads(WrittenDev(dev, w, data, buffered), ram, es, bytes)
  {
    var dev' := WrittenDev(dev, w, data, buffered);
    forall a: nat | a / BLOCK in AllBlocks(es) ensures Byte(dev', ram, a) == Byte(dev, ram, a) {
      ElsewhereByte(dev, ram, w, data, a);
    }
    ReadsAlike(dev, ram, dev', ram, es, bytes);
  }

  // Flushing, shrinking, crashing.

  function FlushedFile(f: File): File {
    f.(pub := f.view, owed := {}, runs := {}, ram := [], lost := false, wedged := false, saved := f.cur)
  }

  /** A file whose payload is on the device and whose commit reported an error:
      the buffer is kept, and may be published all the same. */
  function UnsureFile(f: File, landed: bool): File {
    if landed then f.(pub := f.view, ram := [], lost := true, saved := f.cur) else f.(ram := [])
  }

  /** Data before metadata: the runs go down, then the list is published. */
  lemma FlushServed(arenas: set<nat>, dev: Device, f: File)
    requires Layout(arenas, f) && Served(dev, f)
    ensures Layout(arenas, FlushedFile(f)) && Served(Through(dev, f.ram), FlushedFile(f))
  {
    ReadsAlike(dev, f.ram, Through(dev, f.ram), [], f.view, f.cur);
  }

  lemma UnsureServed(arenas: set<nat>, dev: Device, f: File, landed: bool)
    requires Layout(arenas, f) && Served(dev, f)
    ensures Layout(arenas, UnsureFile(f, landed)) && Served(Through(dev, f.ram), UnsureFile(f, landed))
  {
    FlushServed(arenas, dev, f);
    FlushLeavesOthers(dev, f.ram, f.pub, [], f.saved);
  }

  /** A device that differs only where a run is still buffered: some of the
      file's payload went down, whole, in part or torn. */
  ghost predicate TornUnder(dev: Device, now: Device, ram: seq<BufferedRun>) {
    forall a: nat :: now(a) != dev(a) ==> Look(ram, a).Some?
  }

  lemma {:induction false} LookOnBlock(ram: seq<BufferedRun>, a: nat)
    requires AlignedRuns(ram) && Look(ram, a).Some?
    ensures a / BLOCK in RamBlocks(ram)
  {
    if ram[0].Has(a) {
      ByteOnBlock(ram[0].diskOff, |ram[0].buf|, a);
    } else {
      LookOnBlock(ram[1..], a);
    }
  }

  /** Data before metadata: however much of the payload went down, and however
      torn, the node reads what it read and what is published reads as before,
      so a failed flush or a crash in the middle of one loses nothing. */
  lemma DataFirstIsSafe(arenas: set<nat>, dev: Device, now: Device, f: File)
    requires Layout(arenas, f) && Served(dev, f) && TornUnder(dev, now, f.ram)
    ensures Served(now, f)
  {
    forall a: nat | a / BLOCK in AllBlocks(f.view) ensures Byte(now, f.ram, a) == Byte(dev, f.ram, a) {
      ByteIsLook(dev, f.ram, a);
      ByteIsLook(now, f.ram, a);
    }
    ReadsAlike(dev, f.ram, now, f.ram, f.view, f.cur);
    forall a: nat | a / BLOCK in AllBlocks(f.pub) ensures Byte(now, [], a) == Byte(dev, [], a) {
      if Look(f.ram, a).Some? {
        LookOnBlock(f.ram, a);
      }
    }
    ReadsAlike(dev, [], now, [], f.pub, f.saved);
  }

  lemma FlushLeavesOthers(dev: Device, flushed: seq<BufferedRun>, es: seq<Extent>, ram: seq<BufferedRun>, bytes: Bytes)
    requires AllWell(es) && Reads(dev, ram, es, bytes) && AlignedRuns(flushed) && RamBlocks(flushed) !! AllBlocks(es)
    ensures Reads(Through(dev, flushed), ram, es, bytes)
  {
    forall a: nat | a / BLOCK in AllBlocks(es) ensures Byte(Through(dev, flushed), ram, a) == Byte(dev, ram, a) {
      OffTheRuns(dev, flushed, a);
      SameUnderRuns(Through(dev, flushed), dev, ram, a);
    }
    ReadsAlike(dev, ram, Through(dev, flushed), ram, es, bytes);
  }

  function Cut(bytes: Bytes, size: nat): Bytes {
    (p: nat) => if p < size then bytes(p) else 0
  }

  function CutFile(arenas: set<nat>, f: File, size: nat): File {
    var es := TrimAll(arenas, f.view, size);
    f.(pub := es, view := es, cur := Cut(f.cur, size), saved := Cut(f.cur, size))
  }

  predicate IsFlushed(f: File) {
    f.owed == {} && f.runs == {} && f.ram == [] && !f.lost && !f.wedged && f.pub == f.view
  }

  lemma CutReads(arenas: set<nat>, dev: Device, es: seq<Extent>, size: nat, bytes: Bytes)
    requires AllWell(es) && Homed(arenas, es) && Reads(dev, [], es, bytes)
    ensures Reads(dev, [], TrimAll(arenas, es, size), Cut(bytes, size))
  {
    TruncateCutsIff(arenas, es, size);
    assert PastOwned(arenas, es, size);
    forall p: nat ensures Content(dev, [], TrimAll(arenas, es, size), p) == Cut(bytes, size)(p) {
      if p < size {
        TruncateKeepsBelow(arenas, es, size, p);
        assert Content(dev, [], es, p) == bytes(p);
      } else {
        assert FirstCovering(TrimAll(arenas, es, size), p).None?;
      }
    }
  }

  lemma CutHomed(arenas: set<nat>, es: seq<Extent>, size: nat)
    requires AllWell(es) && Homed(arenas, es)
    ensures Homed(arenas, TrimAll(arenas, es, size))
  {
    var r := TrimAll(arenas, es, size);
    TrimmedFrom(arenas, es, size);
    forall i | 0 <= i < |r| ensures InArena(arenas, r[i].diskOff, r[i].length) && r[i].End() <= MAX_OFF {
      assert r[i] in r;
      var k :| 0 <= k < |es| && Trim(arenas, es[k], size) == [r[i]];
      Between(es[k].diskOff, r[i].diskOff, r[i].diskOff + r[i].length - 1, es[k].diskOff + es[k].length - 1);
    }
  }

  lemma CutServed(arenas: set<nat>, dev: Device, f: File, size: nat)
    requires Layout(arenas, f) && Served(dev, f) && IsFlushed(f)
    ensures Layout(arenas, CutFile(arenas, f, size)) && Served(dev, CutFile(arenas, f, size))
    ensures Claim(CutFile(arenas, f, size)) == Claim(f) - TrimFreed(arenas, f.view, size)
  {
    var es := TrimAll(arenas, f.view, size);
    TruncateKeepsGood(arenas, f.view, size);
    CutHomed(arenas, f.view, size);
    CutReads(arenas, dev, f.view, size, f.cur);
    CutBlocks(arenas, f.view, size);
  }

  lemma CutBlocks(arenas: set<nat>, es: seq<Extent>, size: nat)
    requires Pairwise(es) && Homed(arenas, es)
    ensures AllBlocks(TrimAll(arenas, es, size)) == AllBlocks(es) - TrimFreed(arenas, es, size)
  {
    TruncatePartition(arenas, es, size);
  }

  function CrashedFile(f: File): File {
    f.(view := f.pub, owed := {}, runs := {}, ram := [], lost := false, wedged := false, cur := f.saved)
  }

  // --- Every run ------------------------------------------------------------------

  datatype Vol = Vol(dev: Device, arenas: set<nat>, used: set<nat>, files: map<nat, File>)

  /** A first attempt that landed with its reply lost: the numbers it used and the
      list it left. */
  datatype First = First(chunk: nat, sn: nat, es: seq<Extent>)

  datatype Step =
    | Create(ino: nat)
    | WriteTo(ino: nat, w: Write, data: seq<bv8>, buffered: bool, after: seq<Extent>)
    | Flush(ino: nat)
    | FlushErrs(ino: nat, landed: bool)
    | Truncate(ino: nat, size: nat)
    | Tear(now: Device)
    | Discard(ino: nat)
    | CommitErrs(ino: nat, w: Write, data: seq<bv8>, after: seq<Extent>, landed: bool)
    | Recommit(ino: nat, first: Option<First>, w: Write, data: seq<bv8>, after: seq<Extent>)
    | Crash

  function Blank(): File {
    File([], [], {}, {}, [], false, false, (p: nat) => 0, (p: nat) => 0)
  }

  /** What discarding a buffer gives back: the blocks its plans buried and those
      its writes reserved. */
  function GivesBack(f: File): set<nat> {
    f.owed + f.runs
  }

  /** The list a rejected direct write is planned on again. */
  function Reread(f: File, first: Option<First>): seq<Extent> {
    if first.Some? then first.value.es else f.view
  }

  ghost predicate Replans(arenas: set<nat>, es: seq<Extent>, w: Write, after: seq<Extent>) {
    ChunksBelow(es, w.chunk) && (forall i :: 0 <= i < |es| ==> es[i].sn < w.sn) && Leaves(arenas, es, w, after)
  }

  /** A direct write that was rejected and is planned again with the runs it has:
      because its first attempt had landed, or on a list that had moved on. */
  ghost predicate CanRecommit(arenas: set<nat>, used: set<nat>, f: File, first: Option<First>, w: Write, data: seq<bv8>, after: seq<Extent>) {
    match first
    case None => CanWrite(arenas, used, f, w, data, after)
    case Some(t) => CanWrite(arenas, used, f, w.(chunk := t.chunk, sn := t.sn), data, t.es) && Replans(arenas, t.es, w, after)
  }

  /** A file whose direct write is published, its cached list read again. */
  function CommittedFile(f: File, w: Write, data: seq<bv8>, after: seq<Extent>): File {
    var bytes := Overlay(f.cur, w.off, data);
    f.(pub := after, view := after, cur := bytes, saved := bytes)
  }

  /** Bytes moved only on blocks nobody uses or under a run still buffered. */
  ghost predicate Torn(s: Vol, now: Device) {
    forall a: nat :: now(a) != s.dev(a) && a / BLOCK in s.used ==>
      exists ino :: ino in s.files && Look(s.files[ino].ram, a).Some?
  }

  /** The extents of every file's published list. */
  ghost predicate AllListed(files: map<nat, File>, es: seq<Extent>) {
    forall ino, e :: ino in files && e in files[ino].pub ==> e in es
  }

  /** The bitmaps are rebuilt from the published extents, arena by arena. */
  ghost predicate Rebuilt(arenas: set<nat>, files: map<nat, File>, used: set<nat>) {
    exists es :: AllListed(files, es) && forall id :: id in arenas ==> Allocation.Live(id, es) <= used
  }

  lemma RebuiltHolds(arenas: set<nat>, files: map<nat, File>, used: set<nat>, ino: nat)
    requires Rebuilt(arenas, files, used) && ino in files && Good(files[ino].pub) && Homed(arenas, files[ino].pub)
    ensures AllBlocks(files[ino].pub) <= used
  {
    var es :| AllListed(files, es) && forall id :: id in arenas ==> Allocation.Live(id, es) <= used;
    var pub := files[ino].pub;
    forall b | b in AllBlocks(pub) ensures b in used {
      var i := BlocksAreSomeones(pub, b);
      assert pub[i] in pub;
      Allocation.LiveWhole(arenas, es, pub[i]);
    }
  }

  ghost predicate Next(s: Vol, step: Step, s': Vol) {
    match step
    case Create(ino) =>
      ino !in s.files && s' == s.(files := s.files[ino := Blank()])
    case WriteTo(ino, w, data, buffered, after) =>
      && ino in s.files && CanWrite(s.arenas, s.used, s.files[ino], w, data, after)
      && s' == s.(dev := WrittenDev(s.dev, w, data, buffered), used := s.used + RunBlocks(w.runs),
                  files := s.files[ino := WrittenFile(s.arenas, s.files[ino], w, data, buffered, after)])
    // Rejected for good once writes were buffered on a commit nobody saw; the
    // commit itself, proposed again, is recognised.
    case Flush(ino) =>
      && ino in s.files && !s.files[ino].wedged
      && s' == s.(dev := Through(s.dev, s.files[ino].ram), used := s.used - s.files[ino].owed,
                  files := s.files[ino := FlushedFile(s.files[ino])])
    case FlushErrs(ino, landed) =>
      && ino in s.files && (landed ==> s.files[ino].runs != {} && !s.files[ino].lost)
      && s' == s.(dev := Through(s.dev, s.files[ino].ram), files := s.files[ino := UnsureFile(s.files[ino], landed)])
    case Truncate(ino, size) =>
      && ino in s.files && IsFlushed(s.files[ino])
      && s' == s.(used := s.used - TrimFreed(s.arenas, s.files[ino].view, size),
                  files := s.files[ino := CutFile(s.arenas, s.files[ino], size)])
    case Tear(now) =>
      Torn(s, now) && s' == s.(dev := now)
    case Discard(ino) =>
      && ino in s.files
      && s' == s.(used := s.used - GivesBack(s.files[ino]),
                  files := s.files[ino := CrashedFile(s.files[ino])])
    case CommitErrs(ino, w, data, after, landed) =>
      // The payload is on the device, the commit reported an error, and the
      // runs are given back whether it landed or not.
      && ino in s.files && IsFlushed(s.files[ino]) && CanWrite(s.arenas, s.used, s.files[ino], w, data, after)
      && s' == s.(dev := WrittenDev(s.dev, w, data, false),
                  files := if landed then s.files[ino := CommittedFile(s.files[ino], w, data, after)] else s.files)
    case Recommit(ino, first, w, data, after) =>
      // What the second plan buries is given back once it is committed.
      && ino in s.files && IsFlushed(s.files[ino]) && CanRecommit(s.arenas, s.used, s.files[ino], first, w, data, after)
      && s' == s.(dev := WrittenDev(s.dev, w, data, false),
                  used := s.used + RunBlocks(w.runs) - AllFreed(s.arenas, Reread(s.files[ino], first), w.off, w.End()),
                  files := s.files[ino := CommittedFile(s.files[ino], w, data, after)])
    case Crash =>
      && s'.dev == s.dev && s'.arenas == s.arenas
      && s'.files == (map ino | ino in s.files :: CrashedFile(s.files[ino])) && Rebuilt(s.arenas, s'.files, s'.used)
  }

  /** Reserved blocks are claimed, and some are named by the buffered list; by the
      published one exactly if a flush of them landed. */
  ghost predicate Tracks(f: File) {
    && f.runs <= Claim(f) && (f.runs != {} ==> !(f.runs !! AllBlocks(f.view)))
    && (f.lost <==> !(f.runs !! AllBlocks(f.pub)))
  }

  ghost predicate FileOk(s: Vol, f: File) {
    Layout(s.arenas, f) && Served(s.dev, f) && Claim(f) <= s.used && Tracks(f)
  }

  ghost predicate Apart(files: map<nat, File>) {
    forall i, j :: i in files && j in files && i != j ==> Claim(files[i]) !! Claim(files[j])
  }

  ghost predicate Inv(s: Vol) {
    (forall ino :: ino in s.files ==> FileOk(s, s.files[ino])) && Apart(s.files)
  }

  /** A file none of whose blocks are touched stays as it is. */
  lemma FileStays(s: Vol, s': Vol, f: File, gone: set<nat>)
    requires FileOk(s, f) && s'.arenas == s.arenas && s.used - gone <= s'.used && Claim(f) !! gone
    requires Reads(s'.dev, f.ram, f.view, f.cur) && Reads(s'.dev, [], f.pub, f.saved)
    ensures FileOk(s', f)
  {
  }

  lemma WriteTracks(arenas: set<nat>, used: set<nat>, f: File, w: Write, data: seq<bv8>, buffered: bool, after: seq<Extent>)
    requires Layout(arenas, f) && Claim(f) <= used && Tracks(f) && CanWrite(arenas, used, f, w, data, after)
    ensures Tracks(WrittenFile(arenas, f, w, data, buffered, after))
  {
    var b := SomeRunBlock(w);
    IsPlannable(arenas, used, f, w, data, after);
    WriteBlocks(arenas, f.view, w, after);
    WriteClaims(arenas, used, f, w, data, buffered, after);
    assert b in WrittenFile(arenas, f, w, data, buffered, after).runs && b in AllBlocks(after);
  }

  lemma WriteInv(s: Vol, ino: nat, w: Write, data: seq<bv8>, buffered: bool, after: seq<Extent>, s': Vol)
    requires Inv(s) && Next(s, WriteTo(ino, w, data, buffered, after), s')
    ensures Inv(s')
  {
    var f := s.files[ino];
    WriteLayout(s.arenas, s.used, f, w, data, buffered, after);
    WriteServed(s.arenas, s.used, s.dev, f, w, data, buffered, after);
    WriteClaims(s.arenas, s.used, f, w, data, buffered, after);
    WriteTracks(s.arenas, s.used, f, w, data, buffered, after);
    forall j | j in s.files && j != ino ensures FileOk(s', s.files[j]) {
      var g := s.files[j];
      assert FileOk(s, g);
      WriteLeavesOthers(s.dev, w, data, buffered, g.view, g.ram, g.cur);
      WriteLeavesOthers(s.dev, w, data, buffered, g.pub, [], g.saved);
      FileStays(s, s', g, {});
    }
    forall j | j in s.files ensures Claim(s.files[j]) <= s.used {
      assert FileOk(s, s.files[j]);
    }
    GrowApart(s.files, ino, s'.files[ino], s.used, RunBlocks(w.runs));
  }

  /** A file that also claims blocks nobody used stays apart from the others. */
  lemma GrowApart(files: map<nat, File>, ino: nat, f: File, used: set<nat>, more: set<nat>)
    requires Apart(files) && ino in files && Claim(f) == Claim(files[ino]) + more && more !! used
    requires forall j :: j in files ==> Claim(files[j]) <= used
    ensures Apart(files[ino := f])
  {
    var files' := files[ino := f];
    forall i, j | i in files' && j in files' && i != j ensures Claim(files'[i]) !! Claim(files'[j]) {
      assert Claim(files[i]) !! Claim(files[j]);
    }
  }

  /** Replacing a file by one that claims no more keeps claims apart. */
  lemma ShrinkApart(files: map<nat, File>, ino: nat, f: File)
    requires Apart(files) && ino in files && Claim(f) <= Claim(files[ino])
    ensures Apart(files[ino := f])
  {
    var files' := files[ino := f];
    forall i, j | i in files' && j in files' && i != j ensures Claim(files'[i]) !! Claim(files'[j]) {
      assert Claim(files[i]) !! Claim(files[j]);
    }
  }

  lemma FlushInv(s: Vol, ino: nat, s': Vol)
    requires Inv(s) && Next(s, Flush(ino), s')
    ensures Inv(s')
  {
    var f := s.files[ino];
    assert FileOk(s, f);
    FlushServed(s.arenas, s.dev, f);
    forall j | j in s.files && j != ino ensures FileOk(s', s.files[j]) {
      var g := s.files[j];
      assert FileOk(s, g) && Claim(g) !! Claim(f);
      FlushLeavesOthers(s.dev, f.ram, g.view, g.ram, g.cur);
      FlushLeavesOthers(s.dev, f.ram, g.pub, [], g.saved);
      FileStays(s, s', g, f.owed);
    }
    ShrinkApart(s.files, ino, FlushedFile(f));
  }

  lemma FlushErrsInv(s: Vol, ino: nat, landed: bool, s': Vol)
    requires Inv(s) && Next(s, FlushErrs(ino, landed), s')
    ensures Inv(s')
  {
    var f := s.files[ino];
    assert FileOk(s, f);
    UnsureServed(s.arenas, s.dev, f, landed);
    forall j | j in s.files && j != ino ensures FileOk(s', s.files[j]) {
      var g := s.files[j];
      assert FileOk(s, g) && Claim(g) !! Claim(f);
      FlushLeavesOthers(s.dev, f.ram, g.view, g.ram, g.cur);
      FlushLeavesOthers(s.dev, f.ram, g.pub, [], g.saved);
      FileStays(s, s', g, {});
    }
    ShrinkApart(s.files, ino, UnsureFile(f, landed));
  }

  lemma TruncateInv(s: Vol, ino: nat, size: nat, s': Vol)
    requires Inv(s) && Next(s, Truncate(ino, size), s')
    ensures Inv(s')
  {
    var f, gone := s.files[ino], TrimFreed(s.arenas, s.files[ino].view, size);
    assert FileOk(s, f);
    CutServed(s.arenas, s.dev, f, size);
    TruncatePartition(s.arenas, f.view, size);
    assert gone <= Claim(f);
    forall j | j in s.files && j != ino ensures FileOk(s', s.files[j]) {
      assert FileOk(s, s.files[j]) && Claim(s.files[j]) !! Claim(f);
      FileStays(s, s', s.files[j], gone);
    }
    ShrinkApart(s.files, ino, CutFile(s.arenas, f, size));
  }

  lemma CrashedFileOk(s: Vol, s': Vol, ino: nat)
    requires Inv(s) && Next(s, Crash, s') && ino in s'.files
    ensures ino in s.files && FileOk(s', s'.files[ino]) && Claim(s'.files[ino]) <= Claim(s.files[ino])
  {
    assert FileOk(s, s.files[ino]);
    RebuiltHolds(s.arenas, s'.files, s'.used, ino);
  }

  lemma CrashInv(s: Vol, s': Vol)
    requires Inv(s) && Next(s, Crash, s')
    ensures Inv(s')
  {
    forall ino | ino in s'.files ensures FileOk(s', s'.files[ino]) && Claim(s'.files[ino]) <= Claim(s.files[ino]) {
      CrashedFileOk(s, s', ino);
    }
    forall i, j | i in s'.files && j in s'.files && i != j ensures Claim(s'.files[i]) !! Claim(s'.files[j]) {
      assert Claim(s.files[i]) !! Claim(s.files[j]);
    }
  }

  lemma CreateInv(s: Vol, ino: nat, s': Vol)
    requires Inv(s) && Next(s, Create(ino), s')
    ensures Inv(s')
  {
    forall j | j in s'.files ensures FileOk(s', s'.files[j]) {
      if j != ino {
        FileStays(s, s', s.files[j], {});
      }
    }
  }

  lemma TornElsewhere(s: Vol, now: Device, ino: nat, a: nat)
    requires Inv(s) && Torn(s, now) && ino in s.files && a / BLOCK in Claim(s.files[ino]) && now(a) != s.dev(a)
    ensures Look(s.files[ino].ram, a).Some?
  {
    assert FileOk(s, s.files[ino]);
    var j :| j in s.files && Look(s.files[j].ram, a).Some?;
    assert FileOk(s, s.files[j]);
    LookOnBlock(s.files[j].ram, a);
    assert Apart(s.files);
  }

  /** A claimed byte moved only under the claiming file's own runs. */
  lemma TornUnderOwn(s: Vol, now: Device, ino: nat)
    requires Inv(s) && Torn(s, now) && ino in s.files
    ensures Served(now, s.files[ino])
  {
    var f := s.files[ino];
    assert FileOk(s, f);
    var mine := (a: nat) => if a / BLOCK in Claim(f) then now(a) else s.dev(a);
    forall a: nat | mine(a) != s.dev(a) ensures Look(f.ram, a).Some? {
      TornElsewhere(s, now, ino, a);
    }
    DataFirstIsSafe(s.arenas, s.dev, mine, f);
    forall a: nat | a / BLOCK in AllBlocks(f.view) ensures Byte(now, f.ram, a) == Byte(mine, f.ram, a) {
      SameUnderRuns(now, mine, f.ram, a);
    }
    ReadsAlike(mine, f.ram, now, f.ram, f.view, f.cur);
    ReadsAlike(mine, [], now, [], f.pub, f.saved);
  }

  lemma TearInv(s: Vol, now: Device, s': Vol)
    requires Inv(s) && Next(s, Tear(now), s')
    ensures Inv(s')
  {
    forall ino | ino in s'.files ensures FileOk(s', s'.files[ino]) {
      assert FileOk(s, s.files[ino]);
      TornUnderOwn(s, now, ino);
    }
  }

  /** Discarding a buffer keeps every block owned exactly when nothing it gives
      back is published: no flush of it has landed unseen, and no buffered write
      buried a published block. */
  lemma DiscardKeepsIff(s: Vol, ino: nat, s': Vol)
    requires Inv(s) && Next(s, Discard(ino), s')
    ensures Inv(s') <==> GivesBack(s.files[ino]) !! AllBlocks(s.files[ino].pub)
    ensures Inv(s') <==> !s.files[ino].lost && s.files[ino].owed !! AllBlocks(s.files[ino].pub)
  {
    var f := s.files[ino];
    assert FileOk(s, f);
    if GivesBack(f) !! AllBlocks(f.pub) {
      forall j | j in s.files && j != ino ensures FileOk(s', s.files[j]) {
        assert FileOk(s, s.files[j]) && Claim(s.files[j]) !! Claim(f);
        FileStays(s, s', s.files[j], GivesBack(f));
      }
      assert FileOk(s', CrashedFile(f));
      ShrinkApart(s.files, ino, CrashedFile(f));
    } else {
      assert !(Claim(s'.files[ino]) <= s'.used);
      assert !FileOk(s', s'.files[ino]);
    }
  }

  lemma SomeRunBlock(w: Write) returns (b: nat)
    requires Fits(w.runs, w.len) && w.len > 0
    ensures b in RunBlocks(w.runs)
  {
    b := w.runs[0].diskOff / BLOCK;
    ByteOnBlock(w.runs[0].diskOff, w.runs[0].length, w.runs[0].diskOff);
  }

  /** Giving a direct write's runs back after an error keeps every block owned
      exactly when the commit did not land, which is what reading the file's
      published extents again would tell. */
  lemma CommitErrsKeepsIff(s: Vol, ino: nat, w: Write, data: seq<bv8>, after: seq<Extent>, landed: bool, s': Vol)
    requires Inv(s) && Next(s, CommitErrs(ino, w, data, after, landed), s')
    ensures Inv(s') <==> !landed
    ensures landed <==> !(RunBlocks(w.runs) !! AllBlocks(s'.files[ino].pub))
  {
    var f := s.files[ino];
    assert FileOk(s, f);
    var b := SomeRunBlock(w);
    if landed {
      IsPlannable(s.arenas, s.used, f, w, data, after);
      WriteBlocks(s.arenas, f.view, w, after);
      assert b in AllBlocks(after) && b !in s'.used;
      assert !FileOk(s', s'.files[ino]);
    } else {
      forall j | j in s.files ensures FileOk(s', s.files[j]) {
        assert FileOk(s, s.files[j]);
        OtherFileStays(s, s', s.files[j], w, data, {});
      }
    }
  }

  lemma RecommittedOk(arenas: set<nat>, used: set<nat>, dev: Device, f: File, w: Write, data: seq<bv8>, after: seq<Extent>)
    requires Layout(arenas, f) && Served(dev, f) && Claim(f) <= used && IsFlushed(f) && CanWrite(arenas, used, f, w, data, after)
    ensures var f' := CommittedFile(f, w, data, after);
            && Layout(arenas, f') && Served(WrittenDev(dev, w, data, false), f') && Tracks(f')
            && Claim(f') == Claim(f) - AllFreed(arenas, f.view, w.off, w.End()) + RunBlocks(w.runs)
            && AllFreed(arenas, f.view, w.off, w.End()) <= Claim(f)
  {
    var mid := WrittenFile(arenas, f, w, data, false, after);
    WriteLayout(arenas, used, f, w, data, false, after);
    WriteServed(arenas, used, dev, f, w, data, false, after);
    FlushServed(arenas, WrittenDev(dev, w, data, false), mid);
    assert CommittedFile(f, w, data, after) == FlushedFile(mid);
    IsPlannable(arenas, used, f, w, data, after);
    WriteBlocks(arenas, f.view, w, after);
  }

  /** Blocks claimed and not freed, and those taken, are in use. */
  lemma StillUsed(claim: set<nat>, freed: set<nat>, more: set<nat>, used: set<nat>)
    requires claim <= used && freed <= claim && more !! used
    ensures claim - freed + more <= used + more - freed
  {
  }

  lemma RecommitOwn(s: Vol, ino: nat, w: Write, data: seq<bv8>, after: seq<Extent>, s': Vol)
    requires ino in s.files && FileOk(s, s.files[ino]) && Next(s, Recommit(ino, None, w, data, after), s')
    ensures FileOk(s', s'.files[ino]) && Claim(s'.files[ino]) <= Claim(s.files[ino]) + RunBlocks(w.runs)
    ensures AllFreed(s.arenas, s.files[ino].view, w.off, w.End()) <= Claim(s.files[ino])
  {
    var f, freed := s.files[ino], AllFreed(s.arenas, s.files[ino].view, w.off, w.End());
    RecommittedOk(s.arenas, s.used, s.dev, f, w, data, after);
    StillUsed(Claim(f), freed, RunBlocks(w.runs), s.used);
  }

  lemma RecommitOthers(s: Vol, ino: nat, w: Write, data: seq<bv8>, after: seq<Extent>, s': Vol, j: nat)
    requires Inv(s) && Next(s, Recommit(ino, None, w, data, after), s') && j in s.files && j != ino
    requires AllFreed(s.arenas, s.files[ino].view, w.off, w.End()) <= Claim(s.files[ino])
    ensures FileOk(s', s.files[j])
  {
    var freed := AllFreed(s.arenas, s.files[ino].view, w.off, w.End());
    assert FileOk(s, s.files[j]) && Claim(s.files[j]) !! Claim(s.files[ino]);
    OtherFileStays(s, s', s.files[j], w, data, freed);
  }

  /** A direct write planned again on a list that names none of its runs. */
  lemma RecommitInv(s: Vol, ino: nat, w: Write, data: seq<bv8>, after: seq<Extent>, s': Vol)
    requires Inv(s) && Next(s, Recommit(ino, None, w, data, after), s')
    ensures Inv(s')
  {
    assert FileOk(s, s.files[ino]);
    RecommitOwn(s, ino, w, data, after, s');
    forall j | j in s.files && j != ino ensures FileOk(s', s.files[j]) {
      RecommitOthers(s, ino, w, data, after, s', j);
    }
    RecommitApart(s, ino, s'.files[ino], RunBlocks(w.runs));
  }

  /** A direct write changes no other file. */
  lemma OtherFileStays(s: Vol, s': Vol, g: File, w: Write, data: seq<bv8>, gone: set<nat>)
    requires FileOk(s, g) && Fits(w.runs, w.len) && RunBlocks(w.runs) !! s.used && Claim(g) !! gone
    requires s'.dev == WrittenDev(s.dev, w, data, false) && s'.arenas == s.arenas && s.used - gone <= s'.used
    ensures FileOk(s', g)
  {
    WriteLeavesOthers(s.dev, w, data, false, g.view, g.ram, g.cur);
    WriteLeavesOthers(s.dev, w, data, false, g.pub, [], g.saved);
    FileStays(s, s', g, gone);
  }

  lemma RecommitApart(s: Vol, ino: nat, f: File, more: set<nat>)
    requires Inv(s) && ino in s.files && Claim(f) <= Claim(s.files[ino]) + more && more !! s.used
    ensures Apart(s.files[ino := f])
  {
    var files' := s.files[ino := f];
    forall i, j | i in files' && j in files' && i != j ensures Claim(files'[i]) !! Claim(files'[j]) {
      assert FileOk(s, s.files[i]) && FileOk(s, s.files[j]) && Claim(s.files[i]) !! Claim(s.files[j]);
    }
  }

  /** Planned over its own landed extents, a write buries them and gives its runs
      back, which the list it commits names. */
  lemma BuriesItself(arenas: set<nat>, used: set<nat>, f: File, t: First, w: Write, data: seq<bv8>, after: seq<Extent>) returns (b: nat)
    requires Layout(arenas, f) && Claim(f) <= used && CanRecommit(arenas, used, f, Some(t), w, data, after)
    ensures b in RunBlocks(w.runs) && b in AllBlocks(t.es) && b in AllBlocks(after)
    ensures b in AllFreed(arenas, t.es, w.off, w.End())
  {
    var first := w.(chunk := t.chunk, sn := t.sn);
    IsPlannable(arenas, used, f, first, data, t.es);
    WriteKeepsGood(arenas, f.view, first, t.es);
    WriteHomed(arenas, f.view, first, t.es);
    WriteBlocks(arenas, t.es, w, after);
    WriteBlocks(arenas, f.view, first, t.es);
    NewAreNew(w.runs, w.off, w.len, t.chunk, t.sn, w.gen, w.node);
    var e := first.New()[0];
    assert e in first.New() && e in t.es;
    var i :| 0 <= i < |t.es| && t.es[i] == e;
    BuriedIsFreed(arenas, t.es, w.off, w.End(), i);
    b := e.diskOff / BLOCK;
    ByteOnBlock(e.diskOff, e.length, e.diskOff);
  }

  /** Planning a rejected direct write again keeps every block owned exactly when
      the list it is planned on names none of its runs, which is when its first
      attempt had not landed. */
  lemma RecommitKeepsIff(s: Vol, ino: nat, first: Option<First>, w: Write, data: seq<bv8>, after: seq<Extent>, s': Vol)
    requires Inv(s) && Next(s, Recommit(ino, first, w, data, after), s')
    ensures Inv(s') <==> RunBlocks(w.runs) !! AllBlocks(Reread(s.files[ino], first))
    ensures Inv(s') <==> first.None?
  {
    var f := s.files[ino];
    assert FileOk(s, f);
    match first
    case None =>
      IsPlannable(s.arenas, s.used, f, w, data, after);
      RecommitInv(s, ino, w, data, after, s');
    case Some(t) =>
      var b := BuriesItself(s.arenas, s.used, f, t, w, data, after);
      assert b !in s'.used && b in Claim(s'.files[ino]);
      assert !FileOk(s', s'.files[ino]);
  }

  /** What keeps blocks owned: a discard gives back nothing published, a direct
      commit that reported an error did not land, and one planned again is not
      planned over itself. */
  predicate Safe(s: Vol, step: Step) {
    match step
    case Discard(ino) => ino in s.files ==> GivesBack(s.files[ino]) !! AllBlocks(s.files[ino].pub)
    case CommitErrs(_, _, _, _, landed) => !landed
    case Recommit(ino, first, w, _, _) => ino in s.files ==> RunBlocks(w.runs) !! AllBlocks(Reread(s.files[ino], first))
    case _ => true
  }

  /** A step that may give back blocks that are published. */
  predicate GivesUp(step: Step) {
    step.Discard? || step.CommitErrs? || step.Recommit?
  }

  lemma GivesUpIff(s: Vol, step: Step, s': Vol)
    requires Inv(s) && Next(s, step, s') && GivesUp(step)
    ensures Inv(s') <==> Safe(s, step)
  {
    match step
    case Discard(ino) => DiscardKeepsIff(s, ino, s');
    case CommitErrs(ino, w, data, after, landed) => CommitErrsKeepsIff(s, ino, w, data, after, landed, s');
    case Recommit(ino, first, w, data, after) => RecommitKeepsIff(s, ino, first, w, data, after, s');
  }

  lemma QuietStepInv(s: Vol, step: Step, s': Vol)
    requires Inv(s) && Next(s, step, s') && !GivesUp(step)
    ensures Inv(s')
  {
    match step
    case Create(ino) => CreateInv(s, ino, s');
    case WriteTo(ino, w, data, buffered, after) => WriteInv(s, ino, w, data, buffered, after, s');
    case Flush(ino) => FlushInv(s, ino, s');
    case FlushErrs(ino, landed) => FlushErrsInv(s, ino, landed, s');
    case Truncate(ino, size) => TruncateInv(s, ino, size, s');
    case Tear(now) => TearInv(s, now, s');
    case Crash => CrashInv(s, s');
  }

  /** Every step keeps layout, ownership and contents exactly when it is safe. */
  lemma StepKeepsIff(s: Vol, step: Step, s': Vol)
    requires Inv(s) && Next(s, step, s')
    ensures Inv(s') <==> Safe(s, step)
  {
    if GivesUp(step) {
      GivesUpIff(s, step, s');
    } else {
      QuietStepInv(s, step, s');
    }
  }

  ghost predicate StepAt(run: seq<Vol>, steps: seq<Step>, i: nat)
    requires i < |steps| && i + 1 < |run|
  {
    Next(run[i], steps[i], run[i + 1])
  }

  ghost predicate IsRun(run: seq<Vol>, steps: seq<Step>) {
    && |run| == |steps| + 1 && run[0].files == map[]
    && forall i :: 0 <= i < |steps| ==> StepAt(run, steps, i)
  }

  /** The first `t` steps of a run are safe. */
  predicate AllSafe(run: seq<Vol>, steps: seq<Step>, t: nat)
    requires t <= |steps| && |run| == |steps| + 1
  {
    forall i :: 0 <= i < t ==> Safe(run[i], steps[i])
  }

  lemma {:induction false} RunInv(run: seq<Vol>, steps: seq<Step>, t: nat)
    requires IsRun(run, steps) && t < |run| && AllSafe(run, steps, t)
    ensures Inv(run[t])
  {
    if t > 0 {
      RunInv(run, steps, t - 1);
      assert StepAt(run, steps, t - 1);
      StepKeepsIff(run[t - 1], steps[t - 1], run[t]);
    }
  }

  ghost predicate NamedBy(f: File, b: nat) {
    b in AllBlocks(f.pub) || b in AllBlocks(f.view)
  }

  /** In every state safe steps reach each block named by a published or buffered
      extent is marked allocated, and no block is named by two extents: not of
      one list, not of two files. */
  lemma BlocksHaveOneOwner(run: seq<Vol>, steps: seq<Step>, t: nat, ino: nat, b: nat)
    requires IsRun(run, steps) && t < |run| && AllSafe(run, steps, t) && ino in run[t].files && NamedBy(run[t].files[ino], b)
    ensures b in run[t].used
    ensures forall j :: j in run[t].files && j != ino ==> !NamedBy(run[t].files[j], b)
    ensures Pairwise(run[t].files[ino].view) && Pairwise(run[t].files[ino].pub)
  {
    RunInv(run, steps, t);
    var s := run[t];
    assert FileOk(s, s.files[ino]);
    forall j | j in s.files && j != ino ensures !NamedBy(s.files[j], b) {
      assert FileOk(s, s.files[j]) && Claim(s.files[ino]) !! Claim(s.files[j]);
    }
  }

  // --- What the history says ------------------------------------------------------

  /** A byte of a file as read now, and as a crash would leave it. */
  datatype Pair = Pair(cur: bv8, saved: bv8)

  predicate Overlays(w: Write, data: seq<bv8>, p: nat) {
    w.off <= p < w.off + |data|
  }

  /** What one step does to a byte: a write overlays it, a shrink cuts it, a flush
      that lands saves it, a direct commit that lands overlays and saves it, a crash or a discard falls
      back to what was saved, nothing else moves it. */
  function Moved(step: Step, ino: nat, p: nat, b: Pair): Pair {
    match step
    case Crash => Pair(b.saved, b.saved)
    case WriteTo(i, w, data, _, _) => if i == ino && Overlays(w, data, p) then b.(cur := data[p - w.off]) else b
    case Flush(i) => if i == ino then Pair(b.cur, b.cur) else b
    case FlushErrs(i, landed) => if landed && i == ino then Pair(b.cur, b.cur) else b
    case Truncate(i, size) => if i != ino then b else if p >= size then Pair(0, 0) else Pair(b.cur, b.cur)
    case Discard(i) => if i == ino then Pair(b.saved, b.saved) else b
    case CommitErrs(i, w, data, _, landed) =>
      if !landed || i != ino then b
      else if Overlays(w, data, p) then Pair(data[p - w.off], data[p - w.off]) else Pair(b.cur, b.cur)
    case Recommit(i, _, w, data, _) =>
      if i != ino then b
      else if Overlays(w, data, p) then Pair(data[p - w.off], data[p - w.off]) else Pair(b.cur, b.cur)
    case _ => b
  }

  /** A byte as the steps so far left it, zero to begin with. */
  function History(steps: seq<Step>, ino: nat, p: nat): Pair {
    if steps == [] then Pair(0, 0)
    else Moved(steps[|steps| - 1], ino, p, History(steps[..|steps| - 1], ino, p))
  }

  /** The step may change what the node reads at the byte. */
  predicate Disturbs(step: Step, ino: nat, p: nat) {
    match step
    case Crash => true
    case WriteTo(i, w, data, _, _) => i == ino && Overlays(w, data, p)
    case Truncate(i, size) => i == ino && p >= size
    case Discard(i) => i == ino
    case CommitErrs(i, w, data, _, landed) => landed && i == ino && Overlays(w, data, p)
    case Recommit(i, _, w, data, _) => i == ino && Overlays(w, data, p)
    case _ => false
  }

  /** A byte written reads back until it is overwritten or cut off, or what was
      buffered is dropped. */
  lemma {:induction false} WrittenReadsBack(steps: seq<Step>, ino: nat, p: nat, a: nat)
    requires a < |steps| && steps[a].WriteTo? && steps[a].ino == ino && Overlays(steps[a].w, steps[a].data, p)
    requires forall j :: a < j < |steps| ==> !Disturbs(steps[j], ino, p)
    ensures History(steps, ino, p).cur == steps[a].data[p - steps[a].w.off]
  {
    if a < |steps| - 1 {
      assert forall j :: a < j < |steps| - 1 ==> steps[..|steps| - 1][j] == steps[j];
      WrittenReadsBack(steps[..|steps| - 1], ino, p, a);
    }
  }

  /** A byte cut off reads as zero, now and after any crash, until it is written
      again. */
  lemma {:induction false} CutReadsZero(steps: seq<Step>, ino: nat, p: nat, a: nat)
    requires a < |steps| && steps[a].Truncate? && steps[a].ino == ino && p >= steps[a].size
    requires forall j :: a < j < |steps| && Disturbs(steps[j], ino, p) ==> steps[j].Crash? || steps[j].Discard? || steps[j].Truncate?
    ensures History(steps, ino, p) == Pair(0, 0)
  {
    if a < |steps| - 1 {
      assert forall j :: a < j < |steps| - 1 ==> steps[..|steps| - 1][j] == steps[j];
      CutReadsZero(steps[..|steps| - 1], ino, p, a);
    }
  }

  /** The step publishes the file's contents. */
  predicate Saves(step: Step, ino: nat) {
    match step
    case Flush(i) => i == ino
    case FlushErrs(i, landed) => landed && i == ino
    case _ => false
  }

  /** The step overwrites the byte or cuts it off. */
  predicate Replaces(step: Step, ino: nat, p: nat) {
    Disturbs(step, ino, p) && !step.Crash? && !step.Discard?
  }

  /** Once saved, a byte reads back through any crashes and discards, until it is
      overwritten or cut off. */
  lemma {:induction false} SavedSurvives(steps: seq<Step>, ino: nat, p: nat, f: nat)
    requires f < |steps| && Saves(steps[f], ino)
    requires forall j :: f < j < |steps| ==> !Replaces(steps[j], ino, p)
    ensures History(steps, ino, p) == Pair(History(steps[..f], ino, p).cur, History(steps[..f], ino, p).cur)
  {
    var most := steps[..|steps| - 1];
    if f < |steps| - 1 {
      assert forall j :: f < j < |steps| - 1 ==> most[j] == steps[j];
      assert most[..f] == steps[..f];
      SavedSurvives(most, ino, p, f);
    } else {
      assert most == steps[..f];
    }
  }

  /** A write that was flushed reads back in every state safe steps reach, whatever
      crashed or was discarded since, until its bytes are overwritten or cut off. */
  lemma FlushedWriteSurvives(run: seq<Vol>, steps: seq<Step>, t: nat, ino: nat, p: nat, a: nat, f: nat)
    requires IsRun(run, steps) && t < |run| && AllSafe(run, steps, t) && ino in run[t].files && a < f < t
    requires steps[a].WriteTo? && steps[a].ino == ino && Overlays(steps[a].w, steps[a].data, p) && Saves(steps[f], ino)
    requires forall j :: a < j < f ==> !Disturbs(steps[j], ino, p)
    requires forall j :: f < j < t ==> !Replaces(steps[j], ino, p)
    ensures var g := run[t].files[ino]; Content(run[t].dev, g.ram, g.view, p) == steps[a].data[p - steps[a].w.off]
  {
    var first := steps[..f];
    assert forall j :: 0 <= j < f ==> first[j] == steps[j];
    WrittenReadsBack(first, ino, p, a);
    assert forall j :: 0 <= j < t ==> steps[..t][j] == steps[j];
    assert steps[..t][..f] == first;
    SavedSurvives(steps[..t], ino, p, f);
    EveryByteReads(run, steps, t, ino, p);
  }

  /** What one step makes of a file that is there. */
  function FileAfter(arenas: set<nat>, step: Step, ino: nat, f: File): File {
    match step
    case Crash => CrashedFile(f)
    case WriteTo(i, w, data, buffered, after) => if i == ino then WrittenFile(arenas, f, w, data, buffered, after) else f
    case Flush(i) => if i == ino then FlushedFile(f) else f
    case FlushErrs(i, landed) => if i == ino then UnsureFile(f, landed) else f
    case Truncate(i, size) => if i == ino then CutFile(arenas, f, size) else f
    case Discard(i) => if i == ino then CrashedFile(f) else f
    case CommitErrs(i, w, data, after, landed) => if landed && i == ino then CommittedFile(f, w, data, after) else f
    case Recommit(i, _, w, data, after) => if i == ino then CommittedFile(f, w, data, after) else f
    case _ => f
  }

  lemma FileMoves(s: Vol, step: Step, s': Vol, ino: nat)
    requires Next(s, step, s')
    ensures ino in s.files ==> ino in s'.files && s'.files[ino] == FileAfter(s.arenas, step, ino, s.files[ino])
    ensures ino !in s.files && ino in s'.files ==> s'.files[ino] == Blank()
  {
  }

  function BytesOf(f: File, p: nat): Pair {
    Pair(f.cur(p), f.saved(p))
  }

  lemma ByteMoves(arenas: set<nat>, step: Step, ino: nat, f: File, p: nat)
    ensures BytesOf(FileAfter(arenas, step, ino, f), p) == Moved(step, ino, p, BytesOf(f, p))
  {
  }

  lemma NotThereYet(s: Vol, step: Step, s': Vol, ino: nat, p: nat)
    requires Next(s, step, s') && ino !in s.files
    ensures Moved(step, ino, p, Pair(0, 0)) == Pair(0, 0)
  {
  }

  lemma {:induction false} BytesAreHistory(run: seq<Vol>, steps: seq<Step>, t: nat, ino: nat, p: nat)
    requires IsRun(run, steps) && t < |run|
    ensures if ino in run[t].files then BytesOf(run[t].files[ino], p) == History(steps[..t], ino, p)
            else History(steps[..t], ino, p) == Pair(0, 0)
  {
    if t > 0 {
      BytesAreHistory(run, steps, t - 1, ino, p);
      assert steps[..t][..t - 1] == steps[..t - 1];
      assert StepAt(run, steps, t - 1);
      FileMoves(run[t - 1], steps[t - 1], run[t], ino);
      if ino in run[t - 1].files {
        ByteMoves(run[t - 1].arenas, steps[t - 1], ino, run[t - 1].files[ino], p);
      } else {
        NotThereYet(run[t - 1], steps[t - 1], run[t], ino, p);
      }
    }
  }

  /** In every state safe steps reach every byte of every file reads as the
      history of writes, flushes, lost replies, shrinks, discards and crashes left
      it, from RAM or the device alike, and the published list reads as the
      history says was saved. */
  lemma EveryByteReads(run: seq<Vol>, steps: seq<Step>, t: nat, ino: nat, p: nat)
    requires IsRun(run, steps) && t < |run| && AllSafe(run, steps, t) && ino in run[t].files
    ensures var f := run[t].files[ino];
            && Content(run[t].dev, f.ram, f.view, p) == History(steps[..t], ino, p).cur
            && Content(run[t].dev, [], f.pub, p) == History(steps[..t], ino, p).saved
  {
    RunInv(run, steps, t);
    BytesAreHistory(run, steps, t, ino, p);
    assert FileOk(run[t], run[t].files[ino]);
  }

  lemma ReadyToRead(run: seq<Vol>, steps: seq<Step>, ino: nat)
    requires IsRun(run, steps) && AllSafe(run, steps, |steps|) && ino in run[|steps|].files
    ensures var f := run[|steps|].files[ino]; Ordered(f.view) && Whole(f.view, f.ram)
  {
    RunInv(run, steps, |steps|);
    assert FileOk(run[|steps|], run[|steps|].files[ino]);
  }

  lemma ReadsHistory(run: seq<Vol>, steps: seq<Step>, ino: nat, p: nat)
    requires IsRun(run, steps) && AllSafe(run, steps, |steps|) && ino in run[|steps|].files
    ensures var s := run[|steps|]; Content(s.dev, s.files[ino].ram, s.files[ino].view, p) == History(steps, ino, p).cur
  {
    EveryByteReads(run, steps, |steps|, ino, p);
    assert steps[..|steps|] == steps;
  }

  /** Serving a read in any state safe steps reach returns the file's bytes. */
  method ReadFile(ghost run: seq<Vol>, ghost steps: seq<Step>, s: Vol, ino: nat, size: nat, offset: nat, want: nat)
    returns (data: seq<bv8>)
    requires IsRun(run, steps) && AllSafe(run, steps, |steps|) && s == run[|steps|] && ino in s.files
    ensures |data| == if offset >= size then 0 else Min(want, size - offset)
    ensures forall k :: 0 <= k < |data| ==> data[k] == History(steps, ino, offset + k).cur
  {
    var f := s.files[ino];
    ReadyToRead(run, steps, ino);
    data := HandleRead(s.dev, f.ram, f.view, size, offset, want);
    forall k | 0 <= k < |data| ensures data[k] == History(steps, ino, offset + k).cur {
      ReadsHistory(run, steps, ino, offset + k);
    }
  }
}
