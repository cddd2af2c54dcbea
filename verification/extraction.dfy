/**
 Parameter and bound extraction: the parameters a name filter keeps, in
 discovery order, and the declared bound of each kept parameter that has a
 constraint, when the model can enumerate constraints at all.
 */
module Extraction {
  import opened Wrappers
  import opened Tensors
  import opened NameFilters

  /** The parameters whose names the filter keeps, in their original order. */
  function Kept(ps: seq<Param>, f: NameFilter): (r: seq<Param>)
    ensures |r| <= |ps|
  {
    if |ps| == 0 then []
    else (if KeepName(f, ps[0].name) then [ps[0]] else []) + Kept(ps[1..], f)
  }

  /** Filtering keeps exactly the parameters whose names the filter keeps. */
  lemma {:induction false} KeptMembers(ps: seq<Param>, f: NameFilter)
    ensures forall i :: 0 <= i < |Kept(ps, f)| ==> Kept(ps, f)[i] in ps && KeepName(f, Kept(ps, f)[i].name)
    ensures forall i :: 0 <= i < |ps| && KeepName(f, ps[i].name) ==> ps[i] in Kept(ps, f)
    decreases |ps|
  {
    if |ps| > 0 {
      KeptMembers(ps[1..], f);
      assert forall i :: 0 < i < |ps| ==> ps[i] == ps[1..][i - 1];
    }
  }

  /** A filter that keeps every name keeps the whole list. */
  lemma {:induction false} KeepAllKeepsEverything(ps: seq<Param>, f: NameFilter)
    requires forall i :: 0 <= i < |ps| ==> KeepName(f, ps[i].name)
    ensures Kept(ps, f) == ps
    decreases |ps|
  {
    if |ps| > 0 {
      KeepAllKeepsEverything(ps[1..], f);
    }
  }

  lemma {:induction false} KeptAppend(a: seq<Param>, b: seq<Param>, f: NameFilter)
    ensures Kept(a + b, f) == Kept(a, f) + Kept(b, f)
    decreases |a|
  {
    if |a| == 0 {
      assert a + b == b;
    } else {
      assert (a + b)[1..] == a[1..] + b;
      KeptAppend(a[1..], b, f);
    }
  }

  /** Filtering keeps the model's guarantees: distinct names, well-shaped tensors. */
  lemma {:induction false} KeptDistinct(ps: seq<Param>, f: NameFilter)
    requires DistinctNames(ps)
    ensures DistinctNames(Kept(ps, f))
    ensures AllWellShaped(ps) ==> AllWellShaped(Kept(ps, f))
    decreases |ps|
  {
    if |ps| > 0 {
      KeptDistinct(ps[1..], f);
      KeptMembers(ps[1..], f);
      var rest := Kept(ps[1..], f);
      forall i | 0 <= i < |rest| ensures rest[i].name != ps[0].name {
        var j :| 0 <= j < |ps[1..]| && ps[1..][j] == rest[i];
        assert ps[j + 1] == rest[i];
      }
    }
  }

  /** The declared bounds of `ps`, keyed by name, later entries overwriting earlier ones. */
  function DeclaredBounds(ps: seq<Param>): map<string, Bound>
  {
    if |ps| == 0 then map[]
    else
      var earlier := DeclaredBounds(ps[..|ps| - 1]);
      var last := ps[|ps| - 1];
      match last.declared
      case Some(b) => earlier[last.name := b]
      case None => earlier
  }

  /** Every key of the dictionary is the name of a parameter that declares
      that bound; for distinct names, exactly the parameters that declare a
      bound have a key, mapped to their bound. */
  lemma {:induction false} DeclaredBoundsSpec(ps: seq<Param>)
    ensures forall n :: n in DeclaredBounds(ps) ==>
              exists i :: 0 <= i < |ps| && ps[i].name == n && ps[i].declared == Some(DeclaredBounds(ps)[n])
    ensures DistinctNames(ps) ==>
              forall i :: 0 <= i < |ps| ==> (ps[i].name in DeclaredBounds(ps) <==> ps[i].declared.Some?)
    ensures DistinctNames(ps) ==>
              forall i :: 0 <= i < |ps| && ps[i].declared.Some? ==> DeclaredBounds(ps)[ps[i].name] == ps[i].declared.value
  {
    DeclaredBoundsKeys(ps);
    if DistinctNames(ps) {
      DeclaredBoundsEntries(ps);
    }
  }

  /** Every key comes from a parameter that declares the bound it maps to. */
  lemma {:induction false} DeclaredBoundsKeys(ps: seq<Param>)
    ensures forall n :: n in DeclaredBounds(ps) ==>
              exists i :: 0 <= i < |ps| && ps[i].name == n && ps[i].declared == Some(DeclaredBounds(ps)[n])
    decreases |ps|
  {
    if |ps| > 0 {
      var init := ps[..|ps| - 1];
      DeclaredBoundsKeys(init);
      assert forall i :: 0 <= i < |init| ==> init[i] == ps[i];
    }
  }

  /** With distinct names, a parameter has a key exactly when it declares a
      bound, and the key maps to that bound. */
  lemma {:induction false} DeclaredBoundsEntries(ps: seq<Param>)
    requires DistinctNames(ps)
    ensures forall i :: 0 <= i < |ps| ==> (ps[i].name in DeclaredBounds(ps) <==> ps[i].declared.Some?)
    ensures forall i :: 0 <= i < |ps| && ps[i].declared.Some? ==> DeclaredBounds(ps)[ps[i].name] == ps[i].declared.value
    decreases |ps|
  {
    if |ps| > 0 {
      var init := ps[..|ps| - 1];
      assert forall i :: 0 <= i < |init| ==> init[i] == ps[i];
      DeclaredBoundsKeys(init);
      DeclaredBoundsEntries(init);
    }
  }

  /** What parameter extraction returns: the name -> parameter dictionary as
      an ordered sequence, and the name -> bound dictionary. */
  datatype Extracted = Extracted(params: seq<Param>, bounds: map<string, Bound>)

  /** `get_parameters_and_bounds`: the kept parameters; the declared bound of
      every kept parameter that has one (an unconstrained-looking (-inf, +inf)
      included), and no bounds at all for a model that cannot enumerate
      constraints. */
  function GetParametersAndBounds(m: Module, f: NameFilter): (r: Extracted)
    requires DistinctNames(m.params)
    ensures |r.params| <= |m.params|
    ensures forall i :: 0 <= i < |r.params| ==> r.params[i] in m.params && KeepName(f, r.params[i].name)
    ensures forall i :: 0 <= i < |m.params| && KeepName(f, m.params[i].name) ==> m.params[i] in r.params
    ensures DistinctNames(r.params)
    ensures forall i :: 0 <= i < |r.params| ==>
              (r.params[i].name in r.bounds <==> m.enumeratesConstraints && r.params[i].declared.Some?)
    ensures forall i :: 0 <= i < |r.params| && r.params[i].name in r.bounds ==>
              r.bounds[r.params[i].name] == r.params[i].declared.value
    ensures forall n :: n in r.bounds ==> exists i :: 0 <= i < |r.params| && r.params[i].name == n
    ensures !m.enumeratesConstraints ==> r.bounds == map[]
  {
    var params := Kept(m.params, f);
    KeptDistinct(m.params, f);
    KeptMembers(m.params, f);
    DeclaredBoundsSpec(params);
    Extracted(params, if m.enumeratesConstraints then DeclaredBounds(params) else map[])
  }

  /** A model that only enumerates its parameters yields the same parameter
      dictionary as one that also enumerates constraints, and no bounds. */
  lemma {:induction false} WithoutConstraintEnumeration(m: Module, f: NameFilter)
    requires DistinctNames(m.params)
    ensures GetParametersAndBounds(m.(enumeratesConstraints := false), f).params
         == GetParametersAndBounds(m, f).params
    ensures GetParametersAndBounds(m.(enumeratesConstraints := false), f).bounds == map[]
  {
  }

  /** A model enumerating constraints yields one bound per kept parameter that
      has a constraint, so never more bounds than parameters. */
  lemma {:induction false} BoundsNoMoreThanParams(m: Module, f: NameFilter)
    requires DistinctNames(m.params)
    ensures |GetParametersAndBounds(m, f).bounds| <= |GetParametersAndBounds(m, f).params|
  {
    var r := GetParametersAndBounds(m, f);
    var names := set i | 0 <= i < |r.params| :: r.params[i].name;
    assert r.bounds.Keys <= names;
    CardinalityOfIndexImage(r.params);
    assert |r.bounds.Keys| <= |names| by {
      SubsetCardinality(r.bounds.Keys, names);
    }
  }

  lemma {:induction false} CardinalityOfIndexImage(ps: seq<Param>)
    ensures |set i | 0 <= i < |ps| :: ps[i].name| <= |ps|
    decreases |ps|
  {
    if |ps| > 0 {
      var init := ps[..|ps| - 1];
      CardinalityOfIndexImage(init);
      var s := set i | 0 <= i < |ps| :: ps[i].name;
      var s0 := set i | 0 <= i < |init| :: init[i].name;
      assert s == s0 + {ps[|ps| - 1].name} by {
        forall n | n in s ensures n in s0 + {ps[|ps| - 1].name} {
          var i :| 0 <= i < |ps| && ps[i].name == n;
          if i < |init| { assert init[i].name == n; }
        }
      }
    }
  }

  lemma {:induction false} SubsetCardinality<T>(a: set<T>, b: set<T>)
    requires a <= b
    ensures |a| <= |b|
  {
    assert b == a + (b - a);
  }
}
