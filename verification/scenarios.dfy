/**
 The model's behaviour on the concrete situations the converter's unit tests
 build: an exact-GP marginal log likelihood with a Gaussian likelihood, an
 RBF kernel over three dimensions and a constant mean, all elements zero.
 The three parameter names are kept as a parameter of each statement (any
 three distinct names); `TestNames` holds the dotted paths the model really
 has.
 */
module Scenarios {
  import opened Wrappers
  import opened Tensors
  import opened Layout
  import opened NameFilters
  import opened Extraction
  import opened Flatten
  import opened WriteBack
  import opened RoundTrip

  /** Names of the noise, length-scale and constant-mean parameters. */
  datatype Names = Names(noise: string, lengthscale: string, constant: string)

  predicate Distinct(n: Names)
  {
    n.noise != n.lengthscale && n.noise != n.constant && n.lengthscale != n.constant
  }

  const TestNames := Names("likelihood.noise_covar.raw_noise", "model.covar_module.raw_lengthscale", "model.mean_module.raw_constant")

  lemma {:induction false} TestNamesDistinct()
    ensures Distinct(TestNames)
  {
    assert TestNames.noise[0] != TestNames.lengthscale[0];
    assert TestNames.noise[0] != TestNames.constant[0];
    assert TestNames.lengthscale[6] != TestNames.constant[6];
  }

  const Tag := Meta(Float64, "cpu")

  /** The test model, given the bound the noise constraint declares. A
      constraint with a transform reports (-inf, +inf); the length scale's
      positivity constraint does too; the constant mean has no constraint. */
  function Gp(n: Names, noiseBound: Bound): Module
  {
    Module([
      Param(n.noise, [1], [0.0], Tag, Some(noiseBound)),
      Param(n.lengthscale, [1, 3], [0.0, 0.0, 0.0], Tag, Some(Unbounded)),
      Param(n.constant, [], [0.0], Tag, None)
    ], true)
  }

  function GpLayout(n: Names): seq<Entry>
  {
    [Entry(n.noise, [1], Tag), Entry(n.lengthscale, [1, 3], Tag), Entry(n.constant, [], Tag)]
  }

  lemma {:induction false} NumelOfShapes()
    ensures Numel([1]) == 1 && Numel([1, 3]) == 3 && Numel([]) == 1
  {
    assert [1][1..] == [];
    assert [1, 3][1..] == [3];
    assert [3][1..] == [];
  }

  /** The test layout: the noise at 0, the length scale at 1, the constant at 4, five elements in all. */
  lemma {:induction false} GpOffsets(n: Names)
    ensures Offset(GpLayout(n), 0) == 0
    ensures Offset(GpLayout(n), 1) == 1
    ensures Offset(GpLayout(n), 2) == 4
    ensures TotalNumel(GpLayout(n)) == 5
  {
    var l := GpLayout(n);
    NumelOfShapes();
    OffsetStep(l, 0);
    OffsetStep(l, 1);
    OffsetStep(l, 2);
    OffsetPrefix(l, 3);
    assert l[..3] == l;
  }

  lemma {:induction false} GpValid(n: Names, noiseBound: Bound)
    requires Distinct(n)
    ensures Valid(Gp(n, noiseBound))
    ensures LayoutOf(Gp(n, noiseBound).params) == GpLayout(n)
    ensures Values(Gp(n, noiseBound).params) == [[0.0], [0.0, 0.0, 0.0], [0.0]]
  {
    NumelOfShapes();
    var ps := Gp(n, noiseBound).params;
    assert LayoutOf(ps)[0] == GpLayout(n)[0];
    assert LayoutOf(ps)[1] == GpLayout(n)[1];
    assert LayoutOf(ps)[2] == GpLayout(n)[2];
  }

  lemma {:induction false} JoinOfBlocks<T>(a: seq<T>, b: seq<T>, c: seq<T>)
    ensures Join([a, b, c]) == a + b + c
  {
    assert [a, b, c][1..] == [b, c];
    assert [b, c][1..] == [c];
    assert [c][1..] == [];
    assert Join([c]) == c + [];
    assert a + (b + (c + [])) == a + b + c;
  }

  lemma {:induction false} JoinOfTwo<T>(a: seq<T>, b: seq<T>)
    ensures Join([a, b]) == a + b
  {
    assert [a, b][1..] == [b];
    assert [b][1..] == [];
    assert Join([b]) == b + [];
  }

  /** With nothing excluded, the test model flattens to five zeros along its layout. */
  lemma {:induction false} KeepAllFlattens(n: Names, noiseBound: Bound, overrides: map<string, Override>)
    requires Distinct(n)
    ensures Valid(Gp(n, noiseBound))
    ensures ModuleToArray(Gp(n, noiseBound), [], overrides) == Success(FlattenWith(Gp(n, noiseBound), KeepAll, overrides))
    ensures FlattenWith(Gp(n, noiseBound), KeepAll, overrides).layout == GpLayout(n)
    ensures FlattenWith(Gp(n, noiseBound), KeepAll, overrides).x == [0.0, 0.0, 0.0, 0.0, 0.0]
  {
    GpValid(n, noiseBound);
    ExcludeNothing(Gp(n, noiseBound), overrides);
    JoinOfZeros();
  }

  lemma {:induction false} JoinOfZeros()
    ensures Join([[0.0], [0.0, 0.0, 0.0], [0.0]]) == [0.0, 0.0, 0.0, 0.0, 0.0]
  {
    JoinOfBlocks([0.0], [0.0, 0.0, 0.0], [0.0]);
  }

  /** Flattening the test model: five zeros laid out as the noise (one
      element), the length scale (three) and the constant (a scalar), and no
      bound vectors since every declared bound is (-inf, +inf). */
  lemma {:induction false} BasicScenario(n: Names)
    requires Distinct(n)
    ensures var r := ModuleToArray(Gp(n, Unbounded), [], map[]);
            && r.Success?
            && r.value.x == [0.0, 0.0, 0.0, 0.0, 0.0]
            && r.value.layout == GpLayout(n)
            && r.value.bounds.None?
  {
    KeepAllFlattens(n, Unbounded, map[]);
    GpUnconstrained(n, KeepAll);
  }

  /** Every declared bound of the test model is (-inf, +inf) or absent, so
      flattening it without overrides gives no bound vectors. */
  lemma {:induction false} GpUnconstrained(n: Names, f: NameFilter)
    requires Distinct(n)
    ensures Valid(Gp(n, Unbounded))
    ensures FlattenWith(Gp(n, Unbounded), f, map[]).bounds.None?
  {
    var ps := Gp(n, Unbounded).params;
    GpValid(n, Unbounded);
    forall q | 0 <= q < |ps| ensures ps[q].declared.None? || ps[q].declared == Some(Unbounded) {
      assert q == 0 || q == 1 || q == 2;
    }
    UnconstrainedCollapses(Gp(n, Unbounded), f);
  }

  /** Excluding the constant mean leaves four zeros and the other two entries. */
  lemma {:induction false} ExcludeScenario(n: Names)
    requires Distinct(n)
    ensures var r := ModuleToArray(Gp(n, Unbounded), [Literal(n.constant)], map[]);
            && r.Success?
            && r.value.x == [0.0, 0.0, 0.0, 0.0]
            && r.value.layout == GpLayout(n)[..2]
            && r.value.bounds.None?
  {
    var m := Gp(n, Unbounded);
    var one := NameFilter({n.constant}, []);
    GpValid(n, Unbounded);
    FilterOfOneName(n.constant);
    assert ModuleToArray(m, [Literal(n.constant)], map[]) == Success(FlattenWith(m, one, map[]));
    GpUnconstrained(n, one);
    ExcludeConstantFlat(n);
  }

  lemma {:induction false} ExcludeConstantFlat(n: Names)
    requires Distinct(n)
    ensures Valid(Gp(n, Unbounded))
    ensures FlattenWith(Gp(n, Unbounded), NameFilter({n.constant}, []), map[]).layout == GpLayout(n)[..2]
    ensures FlattenWith(Gp(n, Unbounded), NameFilter({n.constant}, []), map[]).x == [0.0, 0.0, 0.0, 0.0]
  {
    var m := Gp(n, Unbounded);
    GpValid(n, Unbounded);
    FlattenKept(m, NameFilter({n.constant}, []), map[]);
    ExcludeConstantKept(n);
    JoinOfTwo([0.0], [0.0, 0.0, 0.0]);
  }

  lemma {:induction false} ExcludeConstantKept(n: Names)
    requires Distinct(n)
    ensures var kp := Kept(Gp(n, Unbounded).params, NameFilter({n.constant}, []));
            && LayoutOf(kp) == GpLayout(n)[..2]
            && Values(kp) == [[0.0], [0.0, 0.0, 0.0]]
  {
    var ps := Gp(n, Unbounded).params;
    GpValid(n, Unbounded);
    KeptWithoutOne(ps, 2);
    assert ps[..2] + ps[3..] == ps[..2];
    assert LayoutOf(ps[..2]) == GpLayout(n)[..2];
  }

  /** The declared bounds of the test model: the noise's and the length scale's. */
  lemma {:induction false} GpDeclared(n: Names, noiseBound: Bound)
    requires Distinct(n)
    ensures GetParametersAndBounds(Gp(n, noiseBound), KeepAll).bounds
            == map[n.noise := noiseBound, n.lengthscale := Unbounded]
  {
    var m := Gp(n, noiseBound);
    GpValid(n, noiseBound);
    KeepAllKeepsEverything(m.params, KeepAll);
    var ps := m.params;
    assert ps[..2][..1] == ps[..1];
    assert ps[..1][..0] == [];
    assert DeclaredBounds(ps[..1]) == map[n.noise := noiseBound];
    assert DeclaredBounds(ps[..2]) == map[n.noise := noiseBound, n.lengthscale := Unbounded];
    assert DeclaredBounds(ps) == DeclaredBounds(ps[..2]);
  }

  /** The bound vectors of the test model with nothing excluded, written out
      through the per-parameter blocks. */
  lemma {:induction false} FlattenBounds(n: Names, noiseBound: Bound, overrides: map<string, Override>)
    requires Distinct(n)
    ensures Valid(Gp(n, noiseBound))
    ensures var d := map[n.noise := noiseBound, n.lengthscale := Unbounded];
            var ps := Gp(n, noiseBound).params;
            FlattenWith(Gp(n, noiseBound), KeepAll, overrides).bounds
            == if AllUnbounded(ps, d, overrides) then None
               else Some(BoundVectors(Join(LowerBlocks(ps, d, overrides)), Join(UpperBlocks(ps, d, overrides))))
  {
    var m := Gp(n, noiseBound);
    GpValid(n, noiseBound);
    KeepAllKeepsEverything(m.params, KeepAll);
    GpDeclared(n, noiseBound);
  }

  /** The lower and upper bound vectors of the test model when the noise's
      bound is (lo0, +inf), the length scale's override is (lo1, missing) and
      the constant has no bound. */
  lemma {:induction false} BoundBlocks(n: Names, noiseBound: Bound, lo0: Ext, lo1: Ext)
    requires Distinct(n) && lo1.Fin?
    requires noiseBound == Bound(lo0, PosInf)
    ensures var d := map[n.noise := noiseBound, n.lengthscale := Unbounded];
            var o := map[n.lengthscale := Override(Some(lo1), None)];
            var ps := Gp(n, noiseBound).params;
            && Join(LowerBlocks(ps, d, o)) == [lo0, lo1, lo1, lo1, NegInf]
            && Join(UpperBlocks(ps, d, o)) == [PosInf, PosInf, PosInf, PosInf, PosInf]
            && !AllUnbounded(ps, d, o)
  {
    var d := map[n.noise := noiseBound, n.lengthscale := Unbounded];
    var o := map[n.lengthscale := Override(Some(lo1), None)];
    var ps := Gp(n, noiseBound).params;
    NumelOfShapes();
    var lower := LowerBlocks(ps, d, o);
    var upper := UpperBlocks(ps, d, o);
    assert Effective(n.lengthscale, d, o) == Bound(lo1, PosInf);
    assert lower[0] == [lo0] && lower[1] == [lo1, lo1, lo1] && lower[2] == [NegInf];
    assert upper[0] == [PosInf] && upper[1] == [PosInf, PosInf, PosInf] && upper[2] == [PosInf];
    assert lower == [[lo0], [lo1, lo1, lo1], [NegInf]];
    assert upper == [[PosInf], [PosInf, PosInf, PosInf], [PosInf]];
    JoinOfBlocks([lo0], [lo1, lo1, lo1], [NegInf]);
    JoinOfBlocks([PosInf], [PosInf, PosInf, PosInf], [PosInf]);
  }

  /** An override of (0.1, missing) for the length scale gives its three
      elements a lower bound of 0.1 and the noise and constant -inf; every
      upper bound is +inf. With the noise's declared (1e-5, +inf) instead of
      (-inf, +inf), the noise's lower bound is 1e-5. */
  lemma {:induction false} ManualBoundsScenario(n: Names, noiseLower: Ext)
    requires Distinct(n)
    requires noiseLower in {NegInf, Fin(0.00001)}
    ensures var o := map[n.lengthscale := Override(Some(Fin(0.1)), None)];
            var r := ModuleToArray(Gp(n, Bound(noiseLower, PosInf)), [], o);
            && r.Success?
            && r.value.x == [0.0, 0.0, 0.0, 0.0, 0.0]
            && r.value.bounds
               == Some(BoundVectors([noiseLower, Fin(0.1), Fin(0.1), Fin(0.1), NegInf], [PosInf, PosInf, PosInf, PosInf, PosInf]))
  {
    var b := Bound(noiseLower, PosInf);
    var o := map[n.lengthscale := Override(Some(Fin(0.1)), None)];
    KeepAllFlattens(n, b, o);
    FlattenBounds(n, b, o);
    BoundBlocks(n, b, noiseLower, Fin(0.1));
  }

  /** The override (-inf, +inf) for each of the three parameters. */
  function InfiniteOverrides(n: Names): map<string, Override>
  {
    var o := Override(Some(NegInf), Some(PosInf));
    map[n.noise := o, n.lengthscale := o, n.constant := o]
  }

  /** Overriding every parameter with (-inf, +inf) yields no bound vectors. */
  lemma {:induction false} AllInfiniteOverridesScenario(n: Names)
    requires Distinct(n)
    ensures var r := ModuleToArray(Gp(n, Unbounded), [], InfiniteOverrides(n));
            r.Success? && r.value.bounds.None?
  {
    KeepAllFlattens(n, Unbounded, InfiniteOverrides(n));
    InfiniteOverridesCover(n, Unbounded);
    UnboundedOverridesCollapse(Gp(n, Unbounded), KeepAll, InfiniteOverrides(n));
  }

  lemma {:induction false} InfiniteOverridesCover(n: Names, noiseBound: Bound)
    ensures forall q :: 0 <= q < |Gp(n, noiseBound).params| ==> Gp(n, noiseBound).params[q].name in InfiniteOverrides(n)
    ensures forall k :: k in InfiniteOverrides(n) ==>
              InfiniteOverrides(n)[k].lower in {None, Some(NegInf)} && InfiniteOverrides(n)[k].upper in {None, Some(PosInf)}
  {
    var ps := Gp(n, noiseBound).params;
    forall q | 0 <= q < |ps| ensures ps[q].name in InfiniteOverrides(n) {
      assert q == 0 || q == 1 || q == 2;
    }
  }

  /** `_get_index` on the test layout: the noise starts at 0, the constant at 4. */
  method GetIndexScenario(n: Names) returns (noise: nat, constant: nat)
    requires Distinct(n)
    ensures noise == 0 && constant == 4
  {
    GpOffsets(n);
    PositionAt(GpLayout(n), n.noise, 0);
    PositionAt(GpLayout(n), n.constant, 2);
    noise := GetIndex(GpLayout(n), n.noise);
    constant := GetIndex(GpLayout(n), n.constant);
  }

  /** Writing [1, 2, 3, 4, 5] back: the noise becomes [1], the length scale
      [[2, 3, 4]], the constant 5; flattening again gives [1, 2, 3, 4, 5]. */
  lemma {:induction false} SetParametersScenario(n: Names)
    requires Distinct(n)
    ensures var r := SetParamsWithArray(Gp(n, Unbounded), [1.0, 2.0, 3.0, 4.0, 5.0], GpLayout(n));
            && r.Success?
            && r.value.params[0].vals == [1.0]
            && r.value.params[1].vals == [2.0, 3.0, 4.0]
            && r.value.params[2].vals == [5.0]
            && ModuleToArray(r.value, [], map[]) == Success(Flat([1.0, 2.0, 3.0, 4.0, 5.0], GpLayout(n), None))
  {
    WriteFiveOnGp(n, 1.0, 2.0, 3.0, 4.0, 5.0);
  }

  /** Any five elements written back land in order: one for the noise, three
      for the length scale, one for the constant; flattening again gives them back. */
  lemma {:induction false} WriteFiveOnGp(n: Names, a: real, b: real, c: real, d: real, e: real)
    requires Distinct(n)
    ensures var r := SetParamsWithArray(Gp(n, Unbounded), [a, b, c, d, e], GpLayout(n));
            && r.Success?
            && r.value.params[0].vals == [a]
            && r.value.params[1].vals == [b, c, d]
            && r.value.params[2].vals == [e]
            && ModuleToArray(r.value, [], map[]) == Success(Flat([a, b, c, d, e], GpLayout(n), None))
  {
    var x := [a, b, c, d, e];
    RoundTripOnGp(n, x);
    WrittenOnGp(n, x);
    FiveSlices(a, b, c, d, e);
  }

  lemma {:induction false} FiveSlices<T>(a: T, b: T, c: T, d: T, e: T)
    ensures [a, b, c, d, e][0..1] == [a]
    ensures [a, b, c, d, e][1..4] == [b, c, d]
    ensures [a, b, c, d, e][4..5] == [e]
  {
  }

  lemma {:induction false} RoundTripOnGp(n: Names, x: seq<real>)
    requires Distinct(n)
    requires |x| == 5
    ensures var r := SetParamsWithArray(Gp(n, Unbounded), x, GpLayout(n));
            && r.Success?
            && ModuleToArray(r.value, [], map[]) == Success(Flat(x, GpLayout(n), None))
  {
    BasicScenario(n);
    GpValid(n, Unbounded);
    WriteThenFlattenSameLength(Gp(n, Unbounded), [], map[], x);
  }

  /** Each parameter of the test model receives its block of the vector. */
  lemma {:induction false} WrittenOnGp(n: Names, x: seq<real>)
    requires Distinct(n)
    requires |x| == 5
    ensures var r := SetParamsWithArray(Gp(n, Unbounded), x, GpLayout(n));
            && r.Success?
            && r.value.params[0].vals == x[0..1]
            && r.value.params[1].vals == x[1..4]
            && r.value.params[2].vals == x[4..5]
  {
    var m := Gp(n, Unbounded);
    var l := GpLayout(n);
    GpValid(n, Unbounded);
    GpOffsets(n);
    KeptWritable(m.params, KeepAll);
    KeepAllKeepsEverything(m.params, KeepAll);
    DistinctLayout(m.params);
    var r := SetParamsWithArray(m, x, l);
    assert r.value.params[0] == WrittenFrom(m.params[0], x, l, 0);
    assert r.value.params[1] == WrittenFrom(m.params[1], x, l, 0);
    assert r.value.params[2] == WrittenFrom(m.params[2], x, l, 0);
    WrittenAtOffset(m.params[0], x, l, 0);
    WrittenAtOffset(m.params[1], x, l, 0);
    WrittenAtOffset(m.params[2], x, l, 0);
    assert l[1..] == [l[1], l[2]] && l[1..][1..] == [l[2]];
    assert PositionOf(l, n.noise) == 0;
    assert PositionOf(l, n.lengthscale) == 1;
    assert PositionOf(l[1..][1..], n.constant) == 0;
    assert PositionOf(l, n.constant) == 2;
    NumelOfShapes();
  }

  /** A Gaussian likelihood on its own: one parameter, with the (-inf, +inf)
      bound its transformed constraint reports. */
  function Likelihood(name: string): Module
  {
    Module([Param(name, [1], [0.0], Tag, Some(Unbounded))], true)
  }

  /** Extraction from the likelihood: one parameter and one bound, keyed by
      its name; a module that only enumerates parameters gives the same
      parameters and no bounds. */
  lemma {:induction false} ExtractionScenario(name: string)
    ensures var r := GetParametersAndBounds(Likelihood(name), KeepAll);
            && |r.params| == 1 && |r.bounds| == 1
            && r.bounds == map[name := Unbounded]
    ensures var mock := Likelihood(name).(enumeratesConstraints := false);
            && GetParametersAndBounds(mock, KeepAll).params == GetParametersAndBounds(Likelihood(name), KeepAll).params
            && GetParametersAndBounds(mock, KeepAll).bounds == map[]
  {
    var m := Likelihood(name);
    KeepAllKeepsEverything(m.params, KeepAll);
    WithoutConstraintEnumeration(m, KeepAll);
    assert m.params[..0] == [];
    assert DeclaredBounds(m.params) == map[][name := Unbounded];
  }

  /** Building a filter from a name, a pattern and an integer fails on the
      integer, the element at position 2. */
  lemma {:induction false} TypeErrorScenario(bar: string -> bool)
    ensures CreateNameFilter([Literal("foo"), Pattern(bar), Unsupported]) == Failure(TypeError(2))
  {
    var items := [Literal("foo"), Pattern(bar), Unsupported];
    assert items[1..][1..] == [Unsupported];
    assert CreateNameFilter([Unsupported]) == Failure(TypeError(0)) by {
      assert [Unsupported][1..] == [];
    }
    assert items[1..] == [Pattern(bar), Unsupported];
  }
}
