/**
 Flattening and write-back undo each other: writing a model's own flat vector
 back changes nothing, and flattening again after writing a vector back
 returns that vector (its front, when it is longer than the layout), with the
 same layout and the same bound vectors.
 */
module RoundTrip {
  import opened Wrappers
  import opened Tensors
  import opened Layout
  import opened NameFilters
  import opened Extraction
  import opened Flatten
  import opened WriteBack

  /** A write-back changes elements only, so it keeps names, shapes, tags
      and declared bounds in place. */
  lemma {:induction false} WrittenAllFrame(ps: seq<Param>, x: seq<real>, layout: seq<Entry>)
    requires TotalNumel(layout) <= |x|
    ensures forall q :: 0 <= q < |ps| ==> WrittenAll(ps, x, layout, 0)[q] == ps[q].(vals := WrittenAll(ps, x, layout, 0)[q].vals)
  {
    forall q | 0 <= q < |ps| ensures WrittenAll(ps, x, layout, 0)[q] == ps[q].(vals := WrittenAll(ps, x, layout, 0)[q].vals) {
      WrittenAtOffset(ps[q], x, layout, 0);
    }
  }

  /** Filtering commutes with write-back, since write-back keeps names. */
  lemma {:induction false} KeptWrittenAll(ps: seq<Param>, x: seq<real>, layout: seq<Entry>, f: NameFilter)
    requires TotalNumel(layout) <= |x|
    ensures Kept(WrittenAll(ps, x, layout, 0), f) == WrittenAll(Kept(ps, f), x, layout, 0)
    decreases |ps|
  {
    if |ps| > 0 {
      var w0 := WrittenFrom(ps[0], x, layout, 0);
      var head := if KeepName(f, ps[0].name) then [ps[0]] else [];
      WrittenAllCons(ps, x, layout);
      WrittenAtOffset(ps[0], x, layout, 0);
      KeptWrittenAll(ps[1..], x, layout, f);
      WrittenAllAppend(head, Kept(ps[1..], f), x, layout);
      assert WrittenAll(head, x, layout, 0) == if KeepName(f, ps[0].name) then [w0] else [];
    }
  }

  lemma {:induction false} WrittenAllCons(ps: seq<Param>, x: seq<real>, layout: seq<Entry>)
    requires TotalNumel(layout) <= |x| && |ps| > 0
    ensures WrittenAll(ps, x, layout, 0)[0] == WrittenFrom(ps[0], x, layout, 0)
    ensures WrittenAll(ps, x, layout, 0)[1..] == WrittenAll(ps[1..], x, layout, 0)
  {
  }

  lemma {:induction false} WrittenAllAppend(a: seq<Param>, b: seq<Param>, x: seq<real>, layout: seq<Entry>)
    requires TotalNumel(layout) <= |x|
    ensures WrittenAll(a + b, x, layout, 0) == WrittenAll(a, x, layout, 0) + WrittenAll(b, x, layout, 0)
  {
  }

  /** In a list without repeated names, parameter `i` is the first of its name. */
  lemma {:induction false} PositionOfDistinct(ps: seq<Param>, i: nat)
    requires DistinctNames(ps)
    requires i < |ps|
    ensures PositionOf(LayoutOf(ps), ps[i].name) == i
  {
    assert LayoutOf(ps)[i].name == ps[i].name;
  }

  /** Writing `x` back along a list's own layout gives every parameter the
      block of `x` cut for it. */
  lemma {:induction false} WrittenValues(ps: seq<Param>, x: seq<real>)
    requires DistinctNames(ps)
    requires TotalNumel(LayoutOf(ps)) <= |x|
    ensures Values(WrittenAll(ps, x, LayoutOf(ps), 0)) == Slices(x, LayoutOf(ps))
    ensures LayoutOf(WrittenAll(ps, x, LayoutOf(ps), 0)) == LayoutOf(ps)
  {
    var layout := LayoutOf(ps);
    var w := WrittenAll(ps, x, layout, 0);
    forall i | 0 <= i < |ps| ensures w[i].vals == Slices(x, layout)[i] && EntryOf(w[i]) == EntryOf(ps[i]) {
      WrittenValueAt(ps, x, i);
    }
  }

  lemma {:induction false} WrittenValueAt(ps: seq<Param>, x: seq<real>, i: nat)
    requires DistinctNames(ps)
    requires TotalNumel(LayoutOf(ps)) <= |x|
    requires i < |ps|
    ensures WrittenFrom(ps[i], x, LayoutOf(ps), 0).vals == Slices(x, LayoutOf(ps))[i]
    ensures EntryOf(WrittenFrom(ps[i], x, LayoutOf(ps), 0)) == EntryOf(ps[i])
  {
    PositionOfDistinct(ps, i);
    WrittenIsSlice(ps[i], x, LayoutOf(ps), i);
    WrittenAtOffset(ps[i], x, LayoutOf(ps), 0);
  }

  /** The block a parameter receives is the unflattened block of the first
      entry that names it. */
  lemma {:induction false} WrittenIsSlice(p: Param, x: seq<real>, layout: seq<Entry>, i: nat)
    requires TotalNumel(layout) <= |x|
    requires i < |layout| && PositionOf(layout, p.name) == i
    ensures WrittenFrom(p, x, layout, 0).vals == Slices(x, layout)[i]
  {
    WrittenAtOffset(p, x, layout, 0);
    SlicesAt(x, layout, i);
  }

  /** The declared-bound dictionary depends on names and declared bounds only. */
  lemma {:induction false} DeclaredBoundsFrame(ps: seq<Param>, qs: seq<Param>)
    requires |ps| == |qs|
    requires forall i :: 0 <= i < |ps| ==> ps[i].name == qs[i].name && ps[i].declared == qs[i].declared
    ensures DeclaredBounds(ps) == DeclaredBounds(qs)
    decreases |ps|
  {
    if |ps| > 0 {
      DeclaredBoundsFrame(ps[..|ps| - 1], qs[..|qs| - 1]);
    }
  }

  /** The bound vectors depend on the names and shapes of the kept parameters
      and on the declared bounds only. */
  lemma {:induction false} BoundsFrame(ps: seq<Param>, qs: seq<Param>, declared: map<string, Bound>, overrides: map<string, Override>)
    requires |ps| == |qs|
    requires forall i :: 0 <= i < |ps| ==> ps[i].name == qs[i].name && ps[i].shape == qs[i].shape
    ensures LowerBlocks(ps, declared, overrides) == LowerBlocks(qs, declared, overrides)
    ensures UpperBlocks(ps, declared, overrides) == UpperBlocks(qs, declared, overrides)
    ensures AllUnbounded(ps, declared, overrides) == AllUnbounded(qs, declared, overrides)
  {
  }

  /** Writing a vector back along a flattening's layout keeps the model
      valid, and flattening the result gives the vector's front with the same
      layout and bound vectors. */
  lemma {:induction false} FlattenWritten(m: Module, f: NameFilter, overrides: map<string, Override>, x: seq<real>)
    requires Valid(m)
    requires TotalNumel(FlattenWith(m, f, overrides).layout) <= |x|
    ensures var F := FlattenWith(m, f, overrides);
            var m' := m.(params := WrittenAll(m.params, x, F.layout, 0));
            && Valid(m')
            && FlattenWith(m', f, overrides) == Flat(x[..|F.x|], F.layout, F.bounds)
  {
    var F := FlattenWith(m, f, overrides);
    var kp := Kept(m.params, f);
    var w := WrittenAll(m.params, x, F.layout, 0);
    var m' := m.(params := w);
    WrittenValid(m, f, overrides, x);
    FlattenKept(m, f, overrides);
    FlattenKept(m', f, overrides);
    KeptWrittenAll(m.params, x, F.layout, f);
    KeptDistinct(m.params, f);
    var wk := WrittenAll(kp, x, F.layout, 0);
    WrittenValues(kp, x);
    WrittenAllFrame(kp, x, F.layout);
    JoinSlices(x, F.layout);
    DeclaredBoundsFrame(kp, wk);
    var d := GetParametersAndBounds(m, f).bounds;
    assert GetParametersAndBounds(m', f).bounds == d;
    BoundsFrame(kp, wk, d, overrides);
  }

  /** Writing a vector back along a flattening's layout succeeds, keeps the
      model valid and gives every parameter its block. */
  lemma {:induction false} WrittenValid(m: Module, f: NameFilter, overrides: map<string, Override>, x: seq<real>)
    requires Valid(m)
    requires TotalNumel(FlattenWith(m, f, overrides).layout) <= |x|
    ensures var layout := FlattenWith(m, f, overrides).layout;
            && SetParamsWithArray(m, x, layout) == Success(m.(params := WrittenAll(m.params, x, layout, 0)))
            && Valid(m.(params := WrittenAll(m.params, x, layout, 0)))
  {
    FlattenKept(m, f, overrides);
    KeptWritable(m.params, f);
  }

  /** Writing a vector back along the layout of a model's flattening succeeds
      whenever the vector is long enough, and flattening again returns the
      vector's front with the same layout and bound vectors. */
  lemma {:induction false} WriteThenFlatten(m: Module, exclude: seq<FilterItem>, overrides: map<string, Override>, x: seq<real>)
    requires Valid(m)
    requires ModuleToArray(m, exclude, overrides).Success?
    requires |ModuleToArray(m, exclude, overrides).value.x| <= |x|
    ensures var F := ModuleToArray(m, exclude, overrides).value;
            && SetParamsWithArray(m, x, F.layout).Success?
            && Valid(SetParamsWithArray(m, x, F.layout).value)
            && ModuleToArray(SetParamsWithArray(m, x, F.layout).value, exclude, overrides)
               == Success(Flat(x[..|F.x|], F.layout, F.bounds))
  {
    var f := CreateNameFilter(exclude).value;
    var F := FlattenWith(m, f, overrides);
    assert ModuleToArray(m, exclude, overrides) == Success(F);
    WrittenValid(m, f, overrides, x);
    FlattenWritten(m, f, overrides, x);
  }

  /** A vector exactly as long as the flat vector comes back unchanged. */
  lemma {:induction false} WriteThenFlattenSameLength(m: Module, exclude: seq<FilterItem>, overrides: map<string, Override>, x: seq<real>)
    requires Valid(m)
    requires ModuleToArray(m, exclude, overrides).Success?
    requires |ModuleToArray(m, exclude, overrides).value.x| == |x|
    ensures var F := ModuleToArray(m, exclude, overrides).value;
            && SetParamsWithArray(m, x, F.layout).Success?
            && ModuleToArray(SetParamsWithArray(m, x, F.layout).value, exclude, overrides)
               == Success(F.(x := x))
  {
    WriteThenFlatten(m, exclude, overrides, x);
    assert x[..|x|] == x;
  }

  /** The layout of the kept parameters can always be written back into the
      model they came from. */
  lemma {:induction false} KeptWritable(ps: seq<Param>, f: NameFilter)
    requires DistinctNames(ps)
    ensures Writable(ps, LayoutOf(Kept(ps, f)))
  {
    var kp := Kept(ps, f);
    KeptMembers(ps, f);
    forall i | 0 <= i < |kp| ensures EntryWritable(ps, LayoutOf(kp)[i]) {
      var k :| 0 <= k < |ps| && ps[k] == kp[i];
      FindFirst(ps, kp[i].name);
      var j := Find(ps, kp[i].name).value;
      assert j == k;
    }
  }

  /** Writing a model's own flat vector back along its own layout leaves the
      model as it was. */
  lemma {:induction false} FlattenThenWrite(m: Module, exclude: seq<FilterItem>, overrides: map<string, Override>)
    requires Valid(m)
    requires ModuleToArray(m, exclude, overrides).Success?
    ensures var F := ModuleToArray(m, exclude, overrides).value;
            SetParamsWithArray(m, F.x, F.layout) == Success(m)
  {
    var f := CreateNameFilter(exclude).value;
    assert ModuleToArray(m, exclude, overrides) == Success(FlattenWith(m, f, overrides));
    FlattenKept(m, f, overrides);
    OwnVectorWritesNothing(m, f);
  }

  lemma {:induction false} OwnVectorWritesNothing(m: Module, f: NameFilter)
    requires Valid(m)
    ensures var kp := Kept(m.params, f);
            SetParamsWithArray(m, Join(Values(kp)), LayoutOf(kp)) == Success(m)
  {
    var ps := m.params;
    var kp := Kept(ps, f);
    KeptDistinct(ps, f);
    KeptWritable(ps, f);
    DistinctLayout(kp);
    KeptMembers(ps, f);
    var layout := LayoutOf(kp);
    var x := Join(Values(kp));
    JoinLength(Values(kp), layout);
    var r := SetParamsWithArray(m, x, layout);
    forall q | 0 <= q < |ps| ensures r.value.params[q] == ps[q] {
      OwnBlockUnchanged(ps, kp, x, q);
    }
    assert r.value.params == ps;
  }

  /** A parameter written back from the flattening of its own list receives
      the elements it already had. */
  lemma {:induction false} OwnBlockUnchanged(ps: seq<Param>, kp: seq<Param>, x: seq<real>, q: nat)
    requires DistinctNames(ps) && AllWellShaped(kp)
    requires forall i :: 0 <= i < |kp| ==> kp[i] in ps
    requires x == Join(Values(kp))
    requires q < |ps|
    ensures TotalNumel(LayoutOf(kp)) <= |x|
    ensures WrittenFrom(ps[q], x, LayoutOf(kp), 0) == ps[q]
  {
    var layout := LayoutOf(kp);
    JoinLength(Values(kp), layout);
    WrittenAtOffset(ps[q], x, layout, 0);
    var i := PositionOf(layout, ps[q].name);
    if i < |layout| {
      SlicesJoin(Values(kp), layout);
      WrittenIsSlice(ps[q], x, layout, i);
      SameNameSameParam(ps, kp[i], q);
    }
  }

  /** In a list without repeated names, a member is the parameter of its name. */
  lemma {:induction false} SameNameSameParam(ps: seq<Param>, p: Param, q: nat)
    requires DistinctNames(ps)
    requires p in ps && q < |ps| && ps[q].name == p.name
    ensures ps[q] == p
  {
  }
}
