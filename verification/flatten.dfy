/**
 Flattening a model's parameters into one vector for a numerical optimizer,
 with the matching lower and upper bound vectors.
 */
module Flatten {
  import opened Wrappers
  import opened Tensors
  import opened Layout
  import opened NameFilters
  import opened Extraction

  /** A caller's bound override for one parameter. It replaces the declared
      bound as a whole; a missing side leaves that side unbounded. */
  datatype Override = Override(lower: Option<Ext>, upper: Option<Ext>)

  /** Per-element lower and upper bounds, laid out like the flat vector. */
  datatype BoundVectors = BoundVectors(lower: seq<Ext>, upper: seq<Ext>)

  /** What flattening returns: the vector, the layout that write-back needs,
      and the bound vectors, absent when nothing is bounded. */
  datatype Flat = Flat(x: seq<real>, layout: seq<Entry>, bounds: Option<BoundVectors>)

  /** The bound a parameter ends up with, given the bound it declares, if
      any: an override for its name wins (a missing side unbounded),
      otherwise the declared bound, otherwise (-inf, +inf). */
  function Resolve(name: string, declared: Option<Bound>, overrides: map<string, Override>): Bound
  {
    if name in overrides then Bound(overrides[name].lower.GetOr(NegInf), overrides[name].upper.GetOr(PosInf))
    else declared.GetOr(Unbounded)
  }

  /** `Resolve` with the declared bound looked up in the extracted bound dictionary. */
  function Effective(name: string, declared: map<string, Bound>, overrides: map<string, Override>): Bound
  {
    Resolve(name, if name in declared then Some(declared[name]) else None, overrides)
  }

  function Values(ps: seq<Param>): seq<seq<real>>
  {
    seq(|ps|, i requires 0 <= i < |ps| => ps[i].vals)
  }

  function Fill<T>(v: T, n: nat): seq<T>
  {
    seq(n, _ => v)
  }

  function LowerBlocks(ps: seq<Param>, declared: map<string, Bound>, overrides: map<string, Override>): seq<seq<Ext>>
  {
    seq(|ps|, i requires 0 <= i < |ps| => Fill(Effective(ps[i].name, declared, overrides).lower, Numel(ps[i].shape)))
  }

  function UpperBlocks(ps: seq<Param>, declared: map<string, Bound>, overrides: map<string, Override>): seq<seq<Ext>>
  {
    seq(|ps|, i requires 0 <= i < |ps| => Fill(Effective(ps[i].name, declared, overrides).upper, Numel(ps[i].shape)))
  }

  predicate AllUnbounded(ps: seq<Param>, declared: map<string, Bound>, overrides: map<string, Override>)
  {
    forall i :: 0 <= i < |ps| ==> Effective(ps[i].name, declared, overrides) == Unbounded
  }

  /** Flattening with an already constructed name filter. */
  function FlattenWith(m: Module, f: NameFilter, overrides: map<string, Override>): (r: Flat)
    requires Valid(m)
    ensures |r.x| == TotalNumel(r.layout)
    ensures r.bounds.Some? ==> |r.bounds.value.lower| == |r.x| && |r.bounds.value.upper| == |r.x|
    ensures |r.layout| <= |m.params|
    ensures DistinctEntries(r.layout)
  {
    var e := GetParametersAndBounds(m, f);
    var ps := e.params;
    var layout := LayoutOf(ps);
    KeptDistinct(m.params, f);
    DistinctLayout(ps);
    JoinLength(Values(ps), layout);
    JoinLength(LowerBlocks(ps, e.bounds, overrides), layout);
    JoinLength(UpperBlocks(ps, e.bounds, overrides), layout);
    var bounds :=
      if AllUnbounded(ps, e.bounds, overrides) then None
      else Some(BoundVectors(Join(LowerBlocks(ps, e.bounds, overrides)), Join(UpperBlocks(ps, e.bounds, overrides))));
    Flat(Join(Values(ps)), layout, bounds)
  }

  /** `module_to_array`: builds the exclusion filter (failing as its
      construction does), then flattens the parameters it keeps into a
      vector and a layout dictionary with one entry per kept name. */
  function ModuleToArray(m: Module, exclude: seq<FilterItem>, overrides: map<string, Override>): (r: Result<Flat, FilterError>)
    requires Valid(m)
    ensures r.Failure? <==> exists k :: 0 <= k < |exclude| && exclude[k].Unsupported?
    ensures r.Success? ==> |r.value.x| == TotalNumel(r.value.layout)
    ensures r.Success? ==> DistinctEntries(r.value.layout)
    ensures r.Success? ==> r.value.bounds.Some? ==> |r.value.bounds.value.lower| == |r.value.x| == |r.value.bounds.value.upper|
  {
    match CreateNameFilter(exclude)
    case Failure(e) => Failure(e)
    case Success(f) => Success(FlattenWith(m, f, overrides))
  }

  /** A parameter has an entry in the layout of `module_to_array` exactly
      when no element of the exclusion collection excludes its name. */
  lemma {:induction false} ModuleToArrayKeeps(m: Module, exclude: seq<FilterItem>, overrides: map<string, Override>)
    requires Valid(m)
    requires ModuleToArray(m, exclude, overrides).Success?
    ensures forall i :: 0 <= i < |m.params| ==>
              (EntryOf(m.params[i]) in ModuleToArray(m, exclude, overrides).value.layout
               <==> forall k :: 0 <= k < |exclude| ==> !Excludes(exclude[k], m.params[i].name))
  {
    var f := CreateNameFilter(exclude).value;
    LayoutMembership(m.params, f);
    FlattenKept(m, f, overrides);
  }

  /** A parameter has an entry in the layout exactly when the filter keeps its name. */
  lemma {:induction false} LayoutMembership(ps: seq<Param>, f: NameFilter)
    ensures forall i :: 0 <= i < |ps| ==> (EntryOf(ps[i]) in LayoutOf(Kept(ps, f)) <==> KeepName(f, ps[i].name))
  {
    var kp := Kept(ps, f);
    var layout := LayoutOf(kp);
    KeptMembers(ps, f);
    forall i | 0 <= i < |ps| ensures EntryOf(ps[i]) in layout <==> KeepName(f, ps[i].name) {
      if KeepName(f, ps[i].name) {
        var j :| 0 <= j < |kp| && kp[j] == ps[i];
        assert layout[j] == EntryOf(ps[i]);
      }
      if EntryOf(ps[i]) in layout {
        var j :| 0 <= j < |layout| && layout[j] == EntryOf(ps[i]);
        assert kp[j].name == ps[i].name;
      }
    }
  }

  /** The flat vector is the kept parameters' elements concatenated in order:
      entry `i` of the layout describes the `i`-th kept parameter, and element
      `k` of that parameter sits at the entry's offset plus `k`. */
  lemma {:induction false} FlattenPlacement(m: Module, f: NameFilter, overrides: map<string, Override>, i: nat, k: nat)
    requires Valid(m)
    requires i < |FlattenWith(m, f, overrides).layout|
    requires k < Numel(FlattenWith(m, f, overrides).layout[i].shape)
    ensures i < |Kept(m.params, f)|
    ensures FlattenWith(m, f, overrides).layout[i] == EntryOf(Kept(m.params, f)[i])
    ensures Offset(FlattenWith(m, f, overrides).layout, i) + k < |FlattenWith(m, f, overrides).x|
    ensures FlattenWith(m, f, overrides).x[Offset(FlattenWith(m, f, overrides).layout, i) + k] == Kept(m.params, f)[i].vals[k]
  {
    FlattenKept(m, f, overrides);
    KeptDistinct(m.params, f);
    ValuesPlacement(Kept(m.params, f), i, k);
  }

  /** Element `k` of parameter `i` sits at the parameter's offset plus `k`
      in the concatenation of the parameters' elements. */
  lemma {:induction false} ValuesPlacement(ps: seq<Param>, i: nat, k: nat)
    requires AllWellShaped(ps)
    requires i < |ps| && k < Numel(ps[i].shape)
    ensures LayoutOf(ps)[i] == EntryOf(ps[i])
    ensures Offset(LayoutOf(ps), i) + k < |Join(Values(ps))|
    ensures Join(Values(ps))[Offset(LayoutOf(ps), i) + k] == ps[i].vals[k]
  {
    JoinPlacement(Values(ps), LayoutOf(ps), i, k);
  }

  /** Every element of a kept parameter carries that parameter's bound: the
      override's sides when the caller gave one (a missing side unbounded),
      otherwise the declared bound of a model that enumerates constraints,
      otherwise (-inf, +inf). */
  lemma {:induction false} BoundsPlacement(m: Module, f: NameFilter, overrides: map<string, Override>, i: nat, k: nat)
    requires Valid(m)
    requires FlattenWith(m, f, overrides).bounds.Some?
    requires i < |Kept(m.params, f)|
    requires k < Numel(Kept(m.params, f)[i].shape)
    ensures Offset(FlattenWith(m, f, overrides).layout, i) + k < |FlattenWith(m, f, overrides).x|
    ensures var p := Kept(m.params, f)[i];
            var b := FlattenWith(m, f, overrides).bounds.value;
            var at := Offset(FlattenWith(m, f, overrides).layout, i) + k;
            if p.name in overrides then
              b.lower[at] == overrides[p.name].lower.GetOr(NegInf) && b.upper[at] == overrides[p.name].upper.GetOr(PosInf)
            else if m.enumeratesConstraints && p.declared.Some? then
              b.lower[at] == p.declared.value.lower && b.upper[at] == p.declared.value.upper
            else
              b.lower[at] == NegInf && b.upper[at] == PosInf
  {
    var e := GetParametersAndBounds(m, f);
    var kp := e.params;
    var layout := LayoutOf(kp);
    KeptDistinct(m.params, f);
    JoinPlacement(Values(kp), layout, i, k);
    JoinPlacement(LowerBlocks(kp, e.bounds, overrides), layout, i, k);
    JoinPlacement(UpperBlocks(kp, e.bounds, overrides), layout, i, k);
    EffectiveOfKept(m, f, overrides, i);
  }

  /** `Resolve` with the declared bound read off the parameter itself,
      which counts only when the model enumerates constraints. */
  function BoundOf(m: Module, p: Param, overrides: map<string, Override>): Bound
  {
    Resolve(p.name, if m.enumeratesConstraints then p.declared else None, overrides)
  }

  /** Bound vectors are absent exactly when every parameter the filter keeps
      ends up with (-inf, +inf). */
  lemma {:induction false} NoBoundVectorsIff(m: Module, f: NameFilter, overrides: map<string, Override>)
    requires Valid(m)
    ensures FlattenWith(m, f, overrides).bounds.None?
            <==> forall q :: 0 <= q < |m.params| && KeepName(f, m.params[q].name) ==> BoundOf(m, m.params[q], overrides) == Unbounded
  {
    var e := GetParametersAndBounds(m, f);
    assert FlattenWith(m, f, overrides).bounds.None? <==> AllUnbounded(e.params, e.bounds, overrides);
    KeptAllUnbounded(m, f, overrides);
  }

  /** Every kept parameter's looked-up bound is (-inf, +inf) exactly when
      every parameter the filter keeps has (-inf, +inf) as its own bound. */
  lemma {:induction false} KeptAllUnbounded(m: Module, f: NameFilter, overrides: map<string, Override>)
    requires Valid(m)
    ensures var e := GetParametersAndBounds(m, f);
            AllUnbounded(e.params, e.bounds, overrides)
            <==> forall q :: 0 <= q < |m.params| && KeepName(f, m.params[q].name) ==> BoundOf(m, m.params[q], overrides) == Unbounded
  {
    var e := GetParametersAndBounds(m, f);
    var kp := e.params;
    KeptMembers(m.params, f);
    forall i | 0 <= i < |kp| ensures Effective(kp[i].name, e.bounds, overrides) == BoundOf(m, kp[i], overrides) {
      EffectiveOfKept(m, f, overrides, i);
    }
    UnboundedTransfer(m, f, kp, e.bounds, overrides);
  }

  /** When the looked-up bound of each member of `kp` is its own bound, and
      `kp` holds exactly the parameters the filter keeps, all of `kp` is
      unbounded exactly when every kept parameter is. */
  lemma {:induction false} UnboundedTransfer(m: Module, f: NameFilter, kp: seq<Param>, declared: map<string, Bound>, overrides: map<string, Override>)
    requires forall i :: 0 <= i < |kp| ==> Effective(kp[i].name, declared, overrides) == BoundOf(m, kp[i], overrides)
    requires forall i :: 0 <= i < |kp| ==> kp[i] in m.params && KeepName(f, kp[i].name)
    requires forall q :: 0 <= q < |m.params| && KeepName(f, m.params[q].name) ==> m.params[q] in kp
    ensures AllUnbounded(kp, declared, overrides)
            <==> forall q :: 0 <= q < |m.params| && KeepName(f, m.params[q].name) ==> BoundOf(m, m.params[q], overrides) == Unbounded
  {
    if forall q :: 0 <= q < |m.params| && KeepName(f, m.params[q].name) ==> BoundOf(m, m.params[q], overrides) == Unbounded {
      forall i | 0 <= i < |kp| ensures Effective(kp[i].name, declared, overrides) == Unbounded {
        var q :| 0 <= q < |m.params| && m.params[q] == kp[i];
      }
    }
    if AllUnbounded(kp, declared, overrides) {
      forall q | 0 <= q < |m.params| && KeepName(f, m.params[q].name) ensures BoundOf(m, m.params[q], overrides) == Unbounded {
        var i :| 0 <= i < |kp| && kp[i] == m.params[q];
      }
    }
  }

  /** Looking a kept parameter's bound up in the extracted dictionary gives
      the bound read off the parameter itself. */
  lemma {:induction false} EffectiveOfKept(m: Module, f: NameFilter, overrides: map<string, Override>, i: nat)
    requires Valid(m)
    requires i < |GetParametersAndBounds(m, f).params|
    ensures var e := GetParametersAndBounds(m, f);
            Effective(e.params[i].name, e.bounds, overrides) == BoundOf(m, e.params[i], overrides)
  {
  }

  /** With no overrides, bound vectors are absent exactly when the model
      cannot enumerate constraints or every kept parameter that declares a
      bound declares (-inf, +inf). */
  lemma {:induction false} UnconstrainedCollapses(m: Module, f: NameFilter)
    requires Valid(m)
    ensures FlattenWith(m, f, map[]).bounds.None?
            <==> !m.enumeratesConstraints
                 || forall q :: 0 <= q < |m.params| && KeepName(f, m.params[q].name) && m.params[q].declared.Some?
                      ==> m.params[q].declared.value == Unbounded
  {
    NoBoundVectorsIff(m, f, map[]);
  }

  /** Overrides of (-inf, +inf), or of missing sides, for every parameter
      yield no bound vectors, whatever the model declares. */
  lemma {:induction false} UnboundedOverridesCollapse(m: Module, f: NameFilter, overrides: map<string, Override>)
    requires Valid(m)
    requires forall q :: 0 <= q < |m.params| ==> m.params[q].name in overrides
    requires forall n :: n in overrides ==>
               overrides[n].lower in {None, Some(NegInf)} && overrides[n].upper in {None, Some(PosInf)}
    ensures FlattenWith(m, f, overrides).bounds.None?
  {
    NoBoundVectorsIff(m, f, overrides);
  }

  lemma {:induction false} LayoutOfAppend(a: seq<Param>, b: seq<Param>)
    ensures LayoutOf(a + b) == LayoutOf(a) + LayoutOf(b)
  {
  }

  lemma {:induction false} ValuesAppend(a: seq<Param>, b: seq<Param>)
    ensures Values(a + b) == Values(a) + Values(b)
  {
  }

  lemma {:induction false} KeptSplit(ps: seq<Param>, j: nat, f: NameFilter)
    requires j < |ps|
    ensures Kept(ps, f) == Kept(ps[..j], f) + Kept([ps[j]], f) + Kept(ps[j + 1..], f)
  {
    assert ps == ps[..j] + [ps[j]] + ps[j + 1..];
    KeptAppend(ps[..j] + [ps[j]], ps[j + 1..], f);
    KeptAppend(ps[..j], [ps[j]], f);
  }

  /** Filtering out the name of parameter `j` of a list with distinct names
      keeps every parameter but that one. */
  lemma {:induction false} KeptWithoutOne(ps: seq<Param>, j: nat)
    requires DistinctNames(ps)
    requires j < |ps|
    ensures Kept(ps, NameFilter({ps[j].name}, [])) == ps[..j] + ps[j + 1..]
  {
    OthersKept(ps, j, 0, j);
    OthersKept(ps, j, j + 1, |ps|);
    AroundAsSlices(ps, j);
    KeptAround(ps, j, NameFilter({ps[j].name}, []));
  }

  lemma {:induction false} AroundAsSlices(ps: seq<Param>, j: nat)
    requires j < |ps|
    ensures ps[..j] == ps[0..j] && ps[j + 1..] == ps[j + 1..|ps|]
  {
  }

  /** A filter that drops parameter `j` and keeps the runs on either side of
      it whole keeps everything but `j`. */
  lemma {:induction false} KeptAround(ps: seq<Param>, j: nat, f: NameFilter)
    requires j < |ps| && !KeepName(f, ps[j].name)
    requires Kept(ps[..j], f) == ps[..j] && Kept(ps[j + 1..], f) == ps[j + 1..]
    ensures Kept(ps, f) == ps[..j] + ps[j + 1..]
  {
    KeptSplit(ps, j, f);
    DropOnlyOne(ps[j], f);
    assert ps[..j] + [] == ps[..j];
  }

  /** A run of parameters that leaves out parameter `j` passes whole through
      the filter that excludes only `j`'s name. */
  lemma {:induction false} OthersKept(ps: seq<Param>, j: nat, a: nat, b: nat)
    requires DistinctNames(ps)
    requires j < |ps| && a <= b <= |ps| && (j < a || b <= j)
    ensures Kept(ps[a..b], NameFilter({ps[j].name}, [])) == ps[a..b]
  {
    var one := NameFilter({ps[j].name}, []);
    forall i | 0 <= i < |ps[a..b]| ensures KeepName(one, ps[a..b][i].name) {
      assert ps[a..b][i] == ps[a + i];
    }
    KeepAllKeepsEverything(ps[a..b], one);
  }

  lemma {:induction false} DropOnlyOne(p: Param, f: NameFilter)
    requires !KeepName(f, p.name)
    ensures Kept([p], f) == []
  {
    assert [p][1..] == [];
  }

  /** Dropping one parameter from a list drops its entry from the layout and
      its block from the flat vector. */
  lemma {:induction false} DropBlock(pre: seq<Param>, p: Param, post: seq<Param>)
    requires AllWellShaped(pre + [p] + post)
    ensures var whole := LayoutOf(pre + [p] + post);
            && |pre| < |whole|
            && LayoutOf(pre + post) == whole[..|pre|] + whole[|pre| + 1..]
            && Offset(whole, |pre|) + Numel(p.shape) <= |Join(Values(pre + [p] + post))|
            && Join(Values(pre + post))
               == Join(Values(pre + [p] + post))[..Offset(whole, |pre|)]
                  + Join(Values(pre + [p] + post))[Offset(whole, |pre|) + Numel(p.shape)..]
  {
    var whole := LayoutOf(pre + [p] + post);
    LayoutOfAppend(pre, post);
    LayoutOfAppend(pre + [p], post);
    LayoutOfAppend(pre, [p]);
    assert whole[..|pre|] == LayoutOf(pre);
    assert whole[|pre| + 1..] == LayoutOf(post);
    ValuesAppend(pre, post);
    ValuesAppend(pre + [p], post);
    ValuesAppend(pre, [p]);
    JoinAppend(Values(pre), Values(post));
    JoinAppend(Values(pre) + Values([p]), Values(post));
    JoinAppend(Values(pre), Values([p]));
    assert Join(Values([p])) == p.vals by {
      assert Join(Values([p])) == p.vals + Join([]);
    }
    forall i | 0 <= i < |pre| ensures WellShaped(pre[i]) {
      assert pre[i] == (pre + [p] + post)[i];
    }
    assert WellShaped(p) by {
      assert p == (pre + [p] + post)[|pre|];
    }
    JoinLength(Values(pre), LayoutOf(pre));
    OffsetPrefix(whole, |pre|);
  }

  /** The flat vector and layout of exactly the parameters a filter keeps. */
  lemma {:induction false} FlattenKept(m: Module, f: NameFilter, overrides: map<string, Override>)
    requires Valid(m)
    ensures FlattenWith(m, f, overrides).layout == LayoutOf(Kept(m.params, f))
    ensures FlattenWith(m, f, overrides).x == Join(Values(Kept(m.params, f)))
  {
  }

  /** Flattening with no exclusions keeps every parameter; excluding the name
      of parameter `j` keeps every other one, in order. */
  lemma {:induction false} FlattenExcluding(m: Module, overrides: map<string, Override>, j: nat)
    requires Valid(m)
    requires j < |m.params|
    ensures ModuleToArray(m, [], overrides).Success?
    ensures ModuleToArray(m, [], overrides).value.layout == LayoutOf(m.params)
    ensures ModuleToArray(m, [], overrides).value.x == Join(Values(m.params))
    ensures ModuleToArray(m, [Literal(m.params[j].name)], overrides)
            == Success(FlattenWith(m, NameFilter({m.params[j].name}, []), overrides))
    ensures ModuleToArray(m, [Literal(m.params[j].name)], overrides).value.layout
            == LayoutOf(m.params[..j] + m.params[j + 1..])
    ensures ModuleToArray(m, [Literal(m.params[j].name)], overrides).value.x
            == Join(Values(m.params[..j] + m.params[j + 1..]))
  {
    var ps := m.params;
    var one := NameFilter({ps[j].name}, []);
    FilterOfOneName(ps[j].name);
    assert ModuleToArray(m, [Literal(ps[j].name)], overrides) == Success(FlattenWith(m, one, overrides));
    ExcludeNothing(m, overrides);
    FlattenKept(m, one, overrides);
    KeptWithoutOne(ps, j);
  }

  /** With an empty exclusion collection every parameter is flattened, in order. */
  lemma {:induction false} ExcludeNothing(m: Module, overrides: map<string, Override>)
    requires Valid(m)
    ensures ModuleToArray(m, [], overrides) == Success(FlattenWith(m, KeepAll, overrides))
    ensures FlattenWith(m, KeepAll, overrides).layout == LayoutOf(m.params)
    ensures FlattenWith(m, KeepAll, overrides).x == Join(Values(m.params))
  {
    FlattenKept(m, KeepAll, overrides);
    KeepAllKeepsEverything(m.params, KeepAll);
  }

  /** Excluding one parameter by name removes exactly its layout entry; every
      other entry stays, in order. */
  lemma {:induction false} ExcludeOneLayout(m: Module, overrides: map<string, Override>, j: nat)
    requires Valid(m)
    requires j < |m.params|
    ensures ModuleToArray(m, [], overrides).Success?
    ensures ModuleToArray(m, [Literal(m.params[j].name)], overrides).Success?
    ensures var full := ModuleToArray(m, [], overrides).value;
            var ex := ModuleToArray(m, [Literal(m.params[j].name)], overrides).value;
            && j < |full.layout|
            && full.layout[j] == EntryOf(m.params[j])
            && ex.layout == full.layout[..j] + full.layout[j + 1..]
  {
    FlattenExcluding(m, overrides, j);
    ExcludeOneBlock(m.params, j);
  }

  /** Excluding one parameter by name removes exactly its block of the flat
      vector; every other element stays, in order. */
  lemma {:induction false} ExcludeOneVector(m: Module, overrides: map<string, Override>, j: nat)
    requires Valid(m)
    requires j < |m.params|
    ensures ModuleToArray(m, [], overrides).Success?
    ensures ModuleToArray(m, [Literal(m.params[j].name)], overrides).Success?
    ensures var full := ModuleToArray(m, [], overrides).value;
            var ex := ModuleToArray(m, [Literal(m.params[j].name)], overrides).value;
            && j < |full.layout|
            && |ex.x| + Numel(m.params[j].shape) == |full.x|
            && Offset(full.layout, j) + Numel(m.params[j].shape) <= |full.x|
            && ex.x == full.x[..Offset(full.layout, j)] + full.x[Offset(full.layout, j) + Numel(m.params[j].shape)..]
  {
    FlattenExcluding(m, overrides, j);
    ExcludeOneBlock(m.params, j);
  }

  /** `DropBlock` restated for parameter `j` of a well-shaped list. */
  lemma {:induction false} ExcludeOneBlock(ps: seq<Param>, j: nat)
    requires AllWellShaped(ps)
    requires j < |ps|
    ensures j < |LayoutOf(ps)| && LayoutOf(ps)[j] == EntryOf(ps[j])
    ensures LayoutOf(ps[..j] + ps[j + 1..]) == LayoutOf(ps)[..j] + LayoutOf(ps)[j + 1..]
    ensures Offset(LayoutOf(ps), j) + Numel(ps[j].shape) <= |Join(Values(ps))|
    ensures |Join(Values(ps[..j] + ps[j + 1..]))| + Numel(ps[j].shape) == |Join(Values(ps))|
    ensures Join(Values(ps[..j] + ps[j + 1..]))
            == Join(Values(ps))[..Offset(LayoutOf(ps), j)] + Join(Values(ps))[Offset(LayoutOf(ps), j) + Numel(ps[j].shape)..]
  {
    assert ps == ps[..j] + [ps[j]] + ps[j + 1..];
    DropBlock(ps[..j], ps[j], ps[j + 1..]);
  }
}
