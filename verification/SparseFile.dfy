/** Which bytes of a file hold data: DataRanges, SEEK_DATA and SEEK_HOLE
    (pkg/metadata/extent.go), each agreeing with what a read resolves. */
module SparseFile {
  import opened Common
  import opened Extents

  type Range = (nat, nat)

  predicate InRanges(rs: seq<Range>, p: nat) {
    exists i :: 0 <= i < |rs| && rs[i].0 <= p < rs[i].1
  }

  /** Non-empty ranges in ascending order with a gap between neighbours. */
  predicate Separated(rs: seq<Range>) {
    && (forall i :: 0 <= i < |rs| ==> rs[i].0 < rs[i].1)
    && (forall i, j :: 0 <= i < j < |rs| ==> rs[i].1 < rs[j].0)
  }

  /** A byte a read would resolve through some extent. */
  predicate IsData(es: seq<Extent>, p: nat) {
    FirstCovering(es, p).Some?
  }

  /** The next range joins the last one when they meet and opens a new one otherwise. */
  function Join(rs: seq<Range>, start: nat, end: nat): seq<Range> {
    if |rs| > 0 && rs[|rs| - 1].1 >= start
    then rs[..|rs| - 1] + [(rs[|rs| - 1].0, Max(rs[|rs| - 1].1, end))]
    else rs + [(start, end)]
  }

  lemma JoinAdds(rs: seq<Range>, pos: nat, start: nat, end: nat)
    requires Separated(rs) && pos <= start < end
    requires |rs| > 0 ==> rs[|rs| - 1].1 == pos
    ensures Separated(Join(rs, start, end))
    ensures Join(rs, start, end)[|Join(rs, start, end)| - 1].1 == end
    ensures forall p: nat :: InRanges(Join(rs, start, end), p) <==> InRanges(rs, p) || start <= p < end
  {
    var js := Join(rs, start, end);
    forall p: nat
      ensures InRanges(js, p) <==> InRanges(rs, p) || start <= p < end
    {
      if InRanges(rs, p) {
        var i :| 0 <= i < |rs| && rs[i].0 <= p < rs[i].1;
        assert js[i].0 <= p < js[i].1;
      }
      if start <= p < end {
        assert js[|js| - 1].0 <= p < js[|js| - 1].1;
      }
      if InRanges(js, p) {
        var i :| 0 <= i < |js| && js[i].0 <= p < js[i].1;
        assert i < |js| - 1 ==> js[i] == rs[i];
        assert i == |js| - 1 && |js| == |rs| ==> p >= end || start <= p || rs[i].0 <= p < rs[i].1;
      }
    }
  }

  /** Extents before index `i` add no byte in `[pos, size)`. */
  ghost predicate Done(es: seq<Extent>, i: nat, pos: nat, size: nat)
    requires i <= |es|
  {
    forall k, p :: 0 <= k < i && pos <= p < size ==> !es[k].Covers(p)
  }

  lemma Gap(es: seq<Extent>, i: nat, pos: nat, from: nat, size: nat)
    requires Ordered(es) && i <= |es| && Done(es, i, pos, size) && from <= size
    requires i < |es| ==> from <= Max(pos, es[i].logOff)
    ensures forall p: nat :: pos <= p < from ==> !IsData(es, p)
  {
    forall p | pos <= p < from
      ensures FirstCovering(es, p).None?
    {
      forall j | 0 <= j < |es| ensures !es[j].Covers(p) {
        assert j > i ==> ExtentOrder(es[i], es[j]) <= 0;
      }
    }
  }

  lemma CoveredIsData(es: seq<Extent>, i: nat)
    requires i < |es|
    ensures forall p: nat :: es[i].Covers(p) ==> IsData(es, p)
  {
  }

  /** The merged ranges of the bytes a read would resolve below the file's size. */
  method DataRanges(es: seq<Extent>, size: nat) returns (rs: seq<Range>)
    requires Ordered(es)
    ensures Separated(rs)
    ensures forall p: nat :: InRanges(rs, p) <==> p < size && IsData(es, p)
  {
    rs := [];
    var pos := 0;
    var i := 0;
    while i < |es| && pos < size
      invariant 0 <= i <= |es| && pos <= size
      invariant Separated(rs) && (|rs| > 0 ==> rs[|rs| - 1].1 == pos)
      invariant |rs| == 0 ==> pos == 0
      invariant Done(es, i, pos, size)
      invariant forall p: nat :: InRanges(rs, p) <==> p < pos && IsData(es, p)
      decreases |es| - i
    {
      var ext := es[i];
      if ext.End() > pos {
        var start := Max(ext.logOff, pos);
        var end := Min(ext.End(), size);
        if start < end {
          Gap(es, i, pos, start, size);
          CoveredIsData(es, i);
          JoinAdds(rs, pos, start, end);
          rs := Join(rs, start, end);
          pos := end;
        }
      }
      i := i + 1;
    }
    if pos < size {
      Gap(es, i, pos, size, size);
    }
  }

  lemma RangesAgree(es: seq<Extent>, rs: seq<Range>, size: nat, i: nat)
    requires Separated(rs) && i < |rs|
    requires forall p: nat :: InRanges(rs, p) <==> p < size && IsData(es, p)
    ensures forall p: nat :: rs[i].0 <= p < rs[i].1 ==> p < size && IsData(es, p)
    ensures rs[i].1 <= size && (rs[i].1 < size ==> !IsData(es, rs[i].1))
    ensures forall p: nat :: (i > 0 ==> rs[i - 1].1 <= p) && p < rs[i].0 ==> !(p < size && IsData(es, p))
  {
    forall p | rs[i].0 <= p < rs[i].1 ensures p < size && IsData(es, p) {
      assert InRanges(rs, p);
    }
    assert InRanges(rs, rs[i].1 - 1);
    assert !InRanges(rs, rs[i].1);
    forall p: nat | (i > 0 ==> rs[i - 1].1 <= p) && p < rs[i].0 ensures !InRanges(rs, p) {
    }
  }

  /** SEEK_DATA: the least data offset at or after the request. */
  method SeekData(es: seq<Extent>, size: nat, offset: nat) returns (r: Option<nat>)
    requires Ordered(es)
    ensures r.Some? ==> offset <= r.value < size && IsData(es, r.value)
    ensures r.Some? ==> forall p: nat :: offset <= p < r.value ==> !IsData(es, p)
    ensures r.None? ==> forall p: nat :: offset <= p < size ==> !IsData(es, p)
  {
    if offset >= size {
      return None;
    }
    var rs := DataRanges(es, size);
    for i := 0 to |rs|
      invariant forall k :: 0 <= k < i ==> rs[k].1 <= offset
    {
      if rs[i].1 > offset {
        RangesAgree(es, rs, size, i);
        return Some(Max(rs[i].0, offset));
      }
    }
    forall p | offset <= p < size ensures !IsData(es, p) {
      assert !InRanges(rs, p);
    }
    return None;
  }

  /** SEEK_HOLE: the least hole offset at or after the request, the end of the
      file being a hole; nothing only when the request starts past the end. */
  method SeekHole(es: seq<Extent>, size: nat, offset: nat) returns (r: Option<nat>)
    requires Ordered(es)
    ensures r.None? <==> offset >= size
    ensures r.Some? ==> offset <= r.value <= size && (r.value < size ==> !IsData(es, r.value))
    ensures r.Some? ==> forall p: nat :: offset <= p < r.value ==> IsData(es, p)
  {
    if offset >= size {
      return None;
    }
    var rs := DataRanges(es, size);
    var at := offset;
    for i := 0 to |rs|
      invariant offset <= at <= size
      invariant forall p: nat :: offset <= p < at ==> IsData(es, p)
      invariant forall k :: 0 <= k < i ==> rs[k].1 <= at
      invariant at > offset ==> i > 0 && at == rs[i - 1].1
    {
      RangesAgree(es, rs, size, i);
      if at < rs[i].0 {
        return Some(at);
      }
      if at < rs[i].1 {
        at := rs[i].1;
      }
    }
    assert !InRanges(rs, at);
    return Some(at);
  }
}
