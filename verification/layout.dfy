/**
 The flat-vector layout: each included parameter owns a contiguous block of
 the vector, in layout order, as long as its element count. A layout entry
 keeps what write-back needs to rebuild the parameter: its shape and its
 precision/storage tag.
 */
module Layout {
  import opened Tensors

  /** One entry of the name -> (shape, dtype, device) layout dictionary. */
  datatype Entry = Entry(name: string, shape: Shape, meta: Meta)

  function EntryOf(p: Param): Entry
  {
    Entry(p.name, p.shape, p.meta)
  }

  function LayoutOf(ps: seq<Param>): seq<Entry>
  {
    seq(|ps|, i requires 0 <= i < |ps| => EntryOf(ps[i]))
  }

  /** No name has two entries, as in the layout dictionary. */
  predicate DistinctEntries(layout: seq<Entry>)
  {
    forall i, j :: 0 <= i < j < |layout| ==> layout[i].name != layout[j].name
  }

  lemma {:induction false} DistinctEntriesTail(layout: seq<Entry>)
    requires |layout| > 0 && DistinctEntries(layout)
    ensures DistinctEntries(layout[1..])
  {
    assert forall i :: 0 < i < |layout| ==> layout[1..][i - 1] == layout[i];
  }

  /** The names of a list without repeated names give a layout without
      repeated names. */
  lemma {:induction false} DistinctLayout(ps: seq<Param>)
    requires DistinctNames(ps)
    ensures DistinctEntries(LayoutOf(ps))
  {
  }

  /** Length of the flat vector a layout describes: the sum of the element counts. */
  function TotalNumel(layout: seq<Entry>): nat
  {
    if |layout| == 0 then 0 else Numel(layout[0].shape) + TotalNumel(layout[1..])
  }

  /** Where the block of entry `i` starts: the element counts of the entries before it. */
  function Offset(layout: seq<Entry>, i: nat): nat
    requires i <= |layout|
  {
    if i == 0 then 0 else Numel(layout[0].shape) + Offset(layout[1..], i - 1)
  }

  /** Concatenation of blocks, in order. */
  function Join<T>(blocks: seq<seq<T>>): seq<T>
  {
    if |blocks| == 0 then [] else blocks[0] + Join(blocks[1..])
  }

  /** The blocks match the layout one to one, each as long as its entry's element count. */
  predicate Fits<T>(blocks: seq<seq<T>>, layout: seq<Entry>)
  {
    |blocks| == |layout| && forall i :: 0 <= i < |blocks| ==> |blocks[i]| == Numel(layout[i].shape)
  }

  /** Cuts the front of `x` into one block per layout entry, walking with a
      running offset; elements past the layout's total are not used. */
  function Slices<T>(x: seq<T>, layout: seq<Entry>): (r: seq<seq<T>>)
    requires TotalNumel(layout) <= |x|
    ensures |r| == |layout|
  {
    if |layout| == 0 then []
    else
      var n := Numel(layout[0].shape);
      [x[..n]] + Slices(x[n..], layout[1..])
  }

  /** Each block cut from a vector is as long as its entry's element count. */
  lemma {:induction false} SlicesFit<T>(x: seq<T>, layout: seq<Entry>)
    requires TotalNumel(layout) <= |x|
    ensures Fits(Slices(x, layout), layout)
    decreases |layout|
  {
    if |layout| > 0 {
      var n := Numel(layout[0].shape);
      SlicesFit(x[n..], layout[1..]);
    }
  }

  /** Re-flattening the blocks cut from a vector gives back its front. */
  lemma {:induction false} JoinSlices<T>(x: seq<T>, layout: seq<Entry>)
    requires TotalNumel(layout) <= |x|
    ensures Join(Slices(x, layout)) == x[..TotalNumel(layout)]
    decreases |layout|
  {
    if |layout| > 0 {
      var n := Numel(layout[0].shape);
      var rest := Slices(x[n..], layout[1..]);
      JoinSlices(x[n..], layout[1..]);
      assert ([x[..n]] + rest)[1..] == rest;
      assert x[..n] + x[n..][..TotalNumel(layout[1..])] == x[..TotalNumel(layout)];
    }
  }

  lemma {:induction false} TotalNumelAppend(a: seq<Entry>, b: seq<Entry>)
    ensures TotalNumel(a + b) == TotalNumel(a) + TotalNumel(b)
    decreases |a|
  {
    if |a| == 0 {
      assert a + b == b;
    } else {
      assert (a + b)[1..] == a[1..] + b;
      TotalNumelAppend(a[1..], b);
    }
  }

  /** The offset of entry `i` is the length of the layout's first `i` entries. */
  lemma {:induction false} OffsetPrefix(layout: seq<Entry>, i: nat)
    requires i <= |layout|
    ensures Offset(layout, i) == TotalNumel(layout[..i])
    decreases i
  {
    if i > 0 {
      OffsetPrefix(layout[1..], i - 1);
      assert layout[..i][1..] == layout[1..][..i - 1];
    }
  }

  /** Consecutive blocks: entry `i` ends where entry `i + 1` starts, inside the vector. */
  lemma {:induction false} OffsetStep(layout: seq<Entry>, i: nat)
    requires i < |layout|
    ensures Offset(layout, i + 1) == Offset(layout, i) + Numel(layout[i].shape)
    ensures Offset(layout, i + 1) <= TotalNumel(layout)
    decreases i
  {
    if i > 0 {
      OffsetStep(layout[1..], i - 1);
    }
  }

  lemma {:induction false} JoinAppend<T>(a: seq<seq<T>>, b: seq<seq<T>>)
    ensures Join(a + b) == Join(a) + Join(b)
    decreases |a|
  {
    if |a| == 0 {
      assert a + b == b;
    } else {
      assert (a + b)[1..] == a[1..] + b;
      JoinAppend(a[1..], b);
    }
  }

  /** The flat vector is exactly as long as the layout says. */
  lemma {:induction false} JoinLength<T>(blocks: seq<seq<T>>, layout: seq<Entry>)
    requires Fits(blocks, layout)
    ensures |Join(blocks)| == TotalNumel(layout)
    decreases |blocks|
  {
    if |blocks| > 0 {
      JoinLength(blocks[1..], layout[1..]);
    }
  }

  /** Unflattening a flattened vector gives back the blocks it was made of. */
  lemma {:induction false} SlicesJoin<T>(blocks: seq<seq<T>>, layout: seq<Entry>)
    requires Fits(blocks, layout)
    ensures TotalNumel(layout) <= |Join(blocks)|
    ensures Slices(Join(blocks), layout) == blocks
    decreases |blocks|
  {
    JoinLength(blocks, layout);
    if |blocks| > 0 {
      var n := Numel(layout[0].shape);
      assert Join(blocks)[..n] == blocks[0];
      assert Join(blocks)[n..] == Join(blocks[1..]);
      SlicesJoin(blocks[1..], layout[1..]);
    }
  }

  /** Unflattening peels off the first entry's block and continues on the rest. */
  lemma {:induction false} SlicesCons<T>(x: seq<T>, layout: seq<Entry>)
    requires |layout| > 0 && TotalNumel(layout) <= |x|
    ensures Numel(layout[0].shape) + TotalNumel(layout[1..]) <= |x|
    ensures Slices(x, layout) == [x[..Numel(layout[0].shape)]] + Slices(x[Numel(layout[0].shape)..], layout[1..])
  {
  }

  lemma {:induction false} DropSlice<T>(x: seq<T>, n: nat, lo: nat, hi: nat)
    requires n + hi <= |x| && lo <= hi
    ensures x[n..][lo..hi] == x[n + lo..n + hi]
  {
  }

  /** Block `i` of the unflattened vector is the slice starting at entry
      `i`'s offset, as long as the entry's element count. */
  lemma {:induction false} SlicesAt<T>(x: seq<T>, layout: seq<Entry>, i: nat)
    requires TotalNumel(layout) <= |x|
    requires i < |layout|
    ensures Offset(layout, i) + Numel(layout[i].shape) <= |x|
    ensures Slices(x, layout)[i] == x[Offset(layout, i)..Offset(layout, i) + Numel(layout[i].shape)]
    decreases i
  {
    OffsetStep(layout, i);
    SlicesCons(x, layout);
    if i > 0 {
      var n := Numel(layout[0].shape);
      var tail := layout[1..];
      SlicesAt(x[n..], tail, i - 1);
      var lo := Offset(tail, i - 1);
      var m := Numel(tail[i - 1].shape);
      DropSlice(x, n, lo, lo + m);
    }
  }

  /** Element `k` of block `i` sits at position `Offset(layout, i) + k` of
      the flat vector. */
  lemma {:induction false} JoinPlacement<T>(blocks: seq<seq<T>>, layout: seq<Entry>, i: nat, k: nat)
    requires Fits(blocks, layout)
    requires i < |blocks| && k < |blocks[i]|
    ensures Offset(layout, i) + k < |Join(blocks)|
    ensures Join(blocks)[Offset(layout, i) + k] == blocks[i][k]
  {
    SlicesJoin(blocks, layout);
    SlicesAt(Join(blocks), layout, i);
  }

  /** First position of `name` in the layout, or `|layout|` when absent. */
  function PositionOf(layout: seq<Entry>, name: string): (i: nat)
    ensures i <= |layout|
    ensures i < |layout| ==> layout[i].name == name
    ensures forall j :: 0 <= j < i ==> layout[j].name != name
  {
    if |layout| == 0 then 0
    else if layout[0].name == name then 0
    else 1 + PositionOf(layout[1..], name)
  }

  /** `_get_index`: walks the layout summing element counts until it meets
      `name`; for a name that is absent it returns the whole length. */
  method GetIndex(layout: seq<Entry>, name: string) returns (idx: nat)
    ensures idx == Offset(layout, PositionOf(layout, name))
    ensures PositionOf(layout, name) == |layout| ==> idx == TotalNumel(layout)
  {
    idx := 0;
    var i := 0;
    while i < |layout| && layout[i].name != name
      invariant 0 <= i <= |layout|
      invariant forall j :: 0 <= j < i ==> layout[j].name != name
      invariant idx == Offset(layout, i)
    {
      OffsetStep(layout, i);
      idx := idx + Numel(layout[i].shape);
      i := i + 1;
    }
    PositionAt(layout, name, i);
    OffsetPrefix(layout, i);
    assert layout[..|layout|] == layout;
  }

  /** A position where the name first occurs, or the end when it never does,
      is the name's position. */
  lemma {:induction false} PositionAt(layout: seq<Entry>, name: string, i: nat)
    requires i <= |layout|
    requires i < |layout| ==> layout[i].name == name
    requires forall j :: 0 <= j < i ==> layout[j].name != name
    ensures PositionOf(layout, name) == i
    decreases i
  {
    if i > 0 {
      assert layout[0].name != name;
      PositionAt(layout[1..], name, i - 1);
    }
  }
}
