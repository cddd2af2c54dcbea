/**
 Write-back: walking the layout with a running offset, each entry takes the
 next block of the vector as the new elements of the parameter of that name.
 */
module WriteBack {
  import opened Wrappers
  import opened Tensors
  import opened Layout
  import opened NameFilters
  import opened Extraction
  import opened Flatten

  /** Why a write-back stops: the vector runs out before an entry's block
      ends, the model has no parameter of an entry's name, or the parameter's
      shape is not the entry's shape. */
  datatype WriteError = VectorTooShort(name: string) | UnknownParameter(name: string) | ShapeMismatch(name: string)

  /** Index of the first parameter called `name`. */
  function Find(ps: seq<Param>, name: string): (r: Option<nat>)
    ensures r.Some? ==> r.value < |ps| && ps[r.value].name == name
  {
    if |ps| == 0 then None
    else if ps[0].name == name then Some(0)
    else match Find(ps[1..], name)
      case None => None
      case Some(j) => Some(j + 1)
  }

  /** `Find` returns the first parameter of that name, and nothing only when
      no parameter has that name. */
  lemma {:induction false} FindFirst(ps: seq<Param>, name: string)
    ensures Find(ps, name).Some? ==> forall j :: 0 <= j < Find(ps, name).value ==> ps[j].name != name
    ensures Find(ps, name).None? <==> forall j :: 0 <= j < |ps| ==> ps[j].name != name
    decreases |ps|
  {
    if |ps| > 0 {
      FindFirst(ps[1..], name);
      assert forall j :: 0 < j < |ps| ==> ps[j] == ps[1..][j - 1];
    }
  }

  /** The walk from offset `start` over the remaining layout entries. */
  function WriteFrom(ps: seq<Param>, x: seq<real>, layout: seq<Entry>, start: nat): Result<seq<Param>, WriteError>
    decreases |layout|
  {
    if |layout| == 0 then Success(ps)
    else
      var e := layout[0];
      var end := start + Numel(e.shape);
      if |x| < end then Failure(VectorTooShort(e.name))
      else match Find(ps, e.name)
        case None => Failure(UnknownParameter(e.name))
        case Some(j) =>
          if ps[j].shape != e.shape then Failure(ShapeMismatch(e.name))
          else WriteFrom(ps[j := ps[j].(vals := x[start..end])], x, layout[1..], end)
  }

  /** The entry names a parameter of the model with the entry's shape. */
  predicate EntryWritable(ps: seq<Param>, e: Entry)
  {
    Find(ps, e.name).Some? && ps[Find(ps, e.name).value].shape == e.shape
  }

  /** Every layout entry names a parameter of the model with the entry's shape. */
  predicate Writable(ps: seq<Param>, layout: seq<Entry>)
  {
    forall i :: 0 <= i < |layout| ==> EntryWritable(ps, layout[i])
  }

  /** What the walk from `start` does to one parameter: the first entry
      naming it gives it the block at that entry's offset; with no such entry
      it stays as it is. */
  function WrittenFrom(p: Param, x: seq<real>, layout: seq<Entry>, start: nat): Param
    requires start + TotalNumel(layout) <= |x|
    decreases |layout|
  {
    if |layout| == 0 then p
    else
      var end := start + Numel(layout[0].shape);
      if layout[0].name == p.name then p.(vals := x[start..end])
      else WrittenFrom(p, x, layout[1..], end)
  }

  /** The block a parameter receives is the one at the offset of the first
      layout entry that names it, as long as that entry's element count. */
  lemma {:induction false} WrittenAtOffset(p: Param, x: seq<real>, layout: seq<Entry>, start: nat)
    requires start + TotalNumel(layout) <= |x|
    ensures var i := PositionOf(layout, p.name);
            i < |layout| ==>
              && start + Offset(layout, i) + Numel(layout[i].shape) <= |x|
              && WrittenFrom(p, x, layout, start).vals == x[start + Offset(layout, i)..start + Offset(layout, i) + Numel(layout[i].shape)]
    ensures PositionOf(layout, p.name) == |layout| ==> WrittenFrom(p, x, layout, start) == p
    ensures WrittenFrom(p, x, layout, start) == p.(vals := WrittenFrom(p, x, layout, start).vals)
    decreases |layout|
  {
    if |layout| > 0 {
      var n := Numel(layout[0].shape);
      assert start + n + TotalNumel(layout[1..]) <= |x|;
      if layout[0].name != p.name {
        WrittenAtOffset(p, x, layout[1..], start + n);
      }
    }
  }

  /** Only names decide what `Find` returns. */
  lemma {:induction false} FindByNames(ps: seq<Param>, qs: seq<Param>, name: string)
    requires |ps| == |qs|
    requires forall k :: 0 <= k < |ps| ==> ps[k].name == qs[k].name
    ensures Find(ps, name) == Find(qs, name)
    decreases |ps|
  {
    if |ps| > 0 {
      FindByNames(ps[1..], qs[1..], name);
    }
  }

  /** The walk succeeds exactly when every entry names a parameter of its
      shape and the vector covers the whole layout. */
  lemma {:induction false} WriteFromSucceeds(ps: seq<Param>, x: seq<real>, layout: seq<Entry>, start: nat)
    requires start <= |x|
    ensures WriteFrom(ps, x, layout, start).Success? <==> Writable(ps, layout) && start + TotalNumel(layout) <= |x|
    decreases |layout|
  {
    if |layout| > 0 {
      var end := start + Numel(layout[0].shape);
      WritableCons(ps, layout);
      if end <= |x| && EntryWritable(ps, layout[0]) {
        WriteFromStep(ps, x, layout, start);
        WriteFromSucceeds(WriteStep(ps, x, layout[0], start), x, layout[1..], end);
        WritableAfterStep(ps, x, layout[0], start, layout[1..]);
      }
    }
  }

  /** One step of the walk: the block of `e` that starts at `start` becomes
      the elements of the parameter `e` names. */
  function WriteStep(ps: seq<Param>, x: seq<real>, e: Entry, start: nat): (r: seq<Param>)
    requires EntryWritable(ps, e) && start + Numel(e.shape) <= |x|
    ensures |r| == |ps|
  {
    var j := Find(ps, e.name).value;
    ps[j := ps[j].(vals := x[start..start + Numel(e.shape)])]
  }

  /** The walk takes one step for its first entry and goes on from the end
      of that entry's block. */
  lemma {:induction false} WriteFromStep(ps: seq<Param>, x: seq<real>, layout: seq<Entry>, start: nat)
    requires |layout| > 0 && start + Numel(layout[0].shape) <= |x| && EntryWritable(ps, layout[0])
    ensures WriteFrom(ps, x, layout, start)
            == WriteFrom(WriteStep(ps, x, layout[0], start), x, layout[1..], start + Numel(layout[0].shape))
  {
  }

  lemma {:induction false} WritableCons(ps: seq<Param>, layout: seq<Entry>)
    requires |layout| > 0
    ensures Writable(ps, layout) <==> EntryWritable(ps, layout[0]) && Writable(ps, layout[1..])
  {
    assert forall i :: 0 < i < |layout| ==> layout[1..][i - 1] == layout[i];
  }

  /** New elements for one parameter change neither what can be written nor
      whether names repeat. */
  lemma {:induction false} WritableAfterStep(ps: seq<Param>, x: seq<real>, e: Entry, start: nat, layout: seq<Entry>)
    requires EntryWritable(ps, e) && start + Numel(e.shape) <= |x|
    ensures Writable(WriteStep(ps, x, e, start), layout) <==> Writable(ps, layout)
    ensures DistinctNames(WriteStep(ps, x, e, start)) <==> DistinctNames(ps)
  {
    var ps1 := WriteStep(ps, x, e, start);
    assert forall k :: 0 <= k < |ps| ==> ps1[k].name == ps[k].name && ps1[k].shape == ps[k].shape;
    WritableByNames(ps1, ps, layout);
  }

  /** Only names and shapes decide whether a layout can be written. */
  lemma {:induction false} WritableByNames(ps: seq<Param>, qs: seq<Param>, layout: seq<Entry>)
    requires |ps| == |qs|
    requires forall k :: 0 <= k < |ps| ==> ps[k].name == qs[k].name && ps[k].shape == qs[k].shape
    ensures Writable(ps, layout) <==> Writable(qs, layout)
  {
    forall i | 0 <= i < |layout| ensures EntryWritable(ps, layout[i]) <==> EntryWritable(qs, layout[i]) {
      FindByNames(ps, qs, layout[i].name);
    }
  }

  /** The walk changes elements only: the same parameters, in the same order,
      with the same names, shapes, tags and declared bounds, still well-shaped. */
  lemma {:induction false} WriteFromFrame(ps: seq<Param>, x: seq<real>, layout: seq<Entry>, start: nat)
    ensures WriteFrom(ps, x, layout, start).Success? ==>
              var ps' := WriteFrom(ps, x, layout, start).value;
              && |ps'| == |ps|
              && (forall q :: 0 <= q < |ps| ==> ps'[q] == ps[q].(vals := ps'[q].vals))
              && (AllWellShaped(ps) ==> AllWellShaped(ps'))
    decreases |layout|
  {
    if |layout| > 0 && WriteFrom(ps, x, layout, start).Success? {
      var e := layout[0];
      var end := start + Numel(e.shape);
      var j := Find(ps, e.name).value;
      var ps1 := ps[j := ps[j].(vals := x[start..end])];
      WriteFromFrame(ps1, x, layout[1..], end);
    }
  }

  /** The parameter the first entry names takes that entry's block, and no
      later entry of a layout without repeated names touches it again. */
  lemma {:induction false} WrittenOnce(p: Param, x: seq<real>, layout: seq<Entry>, start: nat)
    requires |layout| > 0 && layout[0].name == p.name && DistinctEntries(layout)
    requires start + TotalNumel(layout) <= |x|
    ensures start + Numel(layout[0].shape) + TotalNumel(layout[1..]) <= |x|
    ensures var p' := p.(vals := x[start..start + Numel(layout[0].shape)]);
            && WrittenFrom(p, x, layout, start) == p'
            && WrittenFrom(p', x, layout[1..], start + Numel(layout[0].shape)) == p'
  {
    var rest := layout[1..];
    var end := start + Numel(layout[0].shape);
    var p' := p.(vals := x[start..end]);
    assert PositionOf(rest, p.name) == |rest| by {
      forall k | 0 <= k < |rest| ensures rest[k].name != p.name {
        assert rest[k] == layout[k + 1];
      }
    }
    WrittenAtOffset(p', x, rest, end);
  }

  /** One step of the walk, seen from parameter `q`. */
  lemma {:induction false} WriteStepAt(ps: seq<Param>, x: seq<real>, layout: seq<Entry>, start: nat, q: nat)
    requires DistinctNames(ps) && DistinctEntries(layout)
    requires |layout| > 0 && EntryWritable(ps, layout[0])
    requires start + TotalNumel(layout) <= |x|
    requires q < |ps|
    ensures start + Numel(layout[0].shape) + TotalNumel(layout[1..]) <= |x|
    ensures WrittenFrom(WriteStep(ps, x, layout[0], start)[q], x, layout[1..], start + Numel(layout[0].shape))
            == WrittenFrom(ps[q], x, layout, start)
  {
    var j := Find(ps, layout[0].name).value;
    if q == j {
      WrittenOnce(ps[q], x, layout, start);
    }
  }

  /** Every parameter as the walk from `start` leaves it, each on its own. */
  function WrittenAll(ps: seq<Param>, x: seq<real>, layout: seq<Entry>, start: nat): (r: seq<Param>)
    requires start + TotalNumel(layout) <= |x|
    ensures |r| == |ps|
  {
    seq(|ps|, q requires 0 <= q < |ps| => WrittenFrom(ps[q], x, layout, start))
  }

  /** For a layout without repeated names over a model without repeated
      names, the walk leaves every parameter as `WrittenFrom` describes it. */
  lemma {:induction false} WriteFromContents(ps: seq<Param>, x: seq<real>, layout: seq<Entry>, start: nat)
    requires DistinctNames(ps) && DistinctEntries(layout)
    requires Writable(ps, layout)
    requires start + TotalNumel(layout) <= |x|
    ensures WriteFrom(ps, x, layout, start) == Success(WrittenAll(ps, x, layout, start))
    decreases |layout|
  {
    if |layout| == 0 {
      assert WrittenAll(ps, x, layout, start) == ps;
    } else {
      WriteStepKeeps(ps, x, layout, start);
      WriteFromContents(WriteStep(ps, x, layout[0], start), x, layout[1..], start + Numel(layout[0].shape));
      WrittenAllStep(ps, x, layout, start);
    }
  }

  /** One step of the walk leaves the picture of the rest of the walk unchanged. */
  lemma {:induction false} WrittenAllStep(ps: seq<Param>, x: seq<real>, layout: seq<Entry>, start: nat)
    requires DistinctNames(ps) && DistinctEntries(layout)
    requires |layout| > 0 && EntryWritable(ps, layout[0])
    requires start + TotalNumel(layout) <= |x|
    ensures start + Numel(layout[0].shape) + TotalNumel(layout[1..]) <= |x|
    ensures WrittenAll(WriteStep(ps, x, layout[0], start), x, layout[1..], start + Numel(layout[0].shape))
            == WrittenAll(ps, x, layout, start)
  {
    var end := start + Numel(layout[0].shape);
    var ps1 := WriteStep(ps, x, layout[0], start);
    forall q | 0 <= q < |ps| ensures WrittenFrom(ps1[q], x, layout[1..], end) == WrittenFrom(ps[q], x, layout, start) {
      WriteStepAt(ps, x, layout, start, q);
    }
  }

  /** After one step of the walk, the rest of the walk still meets the
      conditions of `WriteFromContents`. */
  lemma {:induction false} WriteStepKeeps(ps: seq<Param>, x: seq<real>, layout: seq<Entry>, start: nat)
    requires DistinctNames(ps) && DistinctEntries(layout)
    requires Writable(ps, layout) && |layout| > 0
    requires start + TotalNumel(layout) <= |x|
    ensures start + Numel(layout[0].shape) + TotalNumel(layout[1..]) <= |x|
    ensures var ps1 := WriteStep(ps, x, layout[0], start);
            && DistinctNames(ps1) && DistinctEntries(layout[1..]) && Writable(ps1, layout[1..])
            && WriteFrom(ps, x, layout, start) == WriteFrom(ps1, x, layout[1..], start + Numel(layout[0].shape))
  {
    WritableCons(ps, layout);
    DistinctEntriesTail(layout);
    WritableAfterStep(ps, x, layout[0], start, layout[1..]);
    WriteFromStep(ps, x, layout, start);
  }

  /** `set_params_with_array`: writes the vector back into the model along the
      layout, or reports why it cannot. */
  function SetParamsWithArray(m: Module, x: seq<real>, layout: seq<Entry>): (r: Result<Module, WriteError>)
    ensures r.Success? <==> Writable(m.params, layout) && TotalNumel(layout) <= |x|
    ensures r.Success? ==> r.value.enumeratesConstraints == m.enumeratesConstraints && |r.value.params| == |m.params|
    ensures r.Success? ==> forall q :: 0 <= q < |m.params| ==> r.value.params[q] == m.params[q].(vals := r.value.params[q].vals)
    ensures r.Success? && Valid(m) ==> Valid(r.value)
    ensures r.Success? && DistinctNames(m.params) && DistinctEntries(layout) ==>
              r.value.params == WrittenAll(m.params, x, layout, 0)
  {
    WriteFromSucceeds(m.params, x, layout, 0);
    WriteFromFrame(m.params, x, layout, 0);
    match WriteFrom(m.params, x, layout, 0)
    case Failure(e) => Failure(e)
    case Success(ps) =>
      assert DistinctNames(m.params) ==> DistinctNames(ps) by {
        assert forall q :: 0 <= q < |ps| ==> ps[q].name == m.params[q].name;
      }
      assert DistinctNames(m.params) && DistinctEntries(layout) ==> ps == WrittenAll(m.params, x, layout, 0) by {
        if DistinctNames(m.params) && DistinctEntries(layout) {
          WriteFromContents(m.params, x, layout, 0);
        }
      }
      Success(m.(params := ps))
  }
}
