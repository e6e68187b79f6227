/** internal/buffer/block.go: one cached block and its exact dirty extents. */
module Blocks {
  import opened Extents
  import opened BufferSpec

  datatype Block = Block(data: seq<byte>, dirty: seq<Extent>)

  /** addDirty on the dirty list of a block. */
  method AddDirty(dirty: seq<Extent>, lo: int, hi: int) returns (r: seq<Extent>)
    requires Canonical(dirty)
    ensures Canonical(r)
    ensures Bytes(r) == Bytes(dirty) + Span(lo, hi)
  {
    hide Bytes, Canonical;
    if hi <= lo {
      assert Span(lo, hi) == {};
      return dirty;
    }
    var i: nat := 0;
    while i < |dirty|
      invariant i <= |dirty|
      invariant i > 0 ==> dirty[i - 1].end < lo
    {
      var ext := dirty[i];
      if hi < ext.off {
        InsertedBytes(dirty, i, Extent(lo, hi));
        MergedCanonical(dirty, i, i, Extent(lo, hi));
        return dirty[..i] + [Extent(lo, hi)] + dirty[i..];
      }
      if lo <= ext.end {
        r := MergeAt(dirty, i, lo, hi);
        return;
      }
      i := i + 1;
    }
    InsertedBytes(dirty, i, Extent(lo, hi));
    MergedCanonical(dirty, i, i, Extent(lo, hi));
    assert dirty[..i] + [Extent(lo, hi)] + dirty[i..] == dirty + [Extent(lo, hi)];
    return dirty + [Extent(lo, hi)];
  }

  /** removeDirty; its one caller always passes a non-empty range. */
  method RemoveDirty(dirty: seq<Extent>, lo: int, hi: int) returns (r: seq<Extent>)
    requires Canonical(dirty) && lo < hi
    ensures Canonical(r)
    ensures Bytes(r) == Bytes(dirty) - Span(lo, hi)
  {
    r := CutFrom(dirty, 0, lo, hi);
  }
}
