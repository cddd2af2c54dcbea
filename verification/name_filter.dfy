/**
 Name filters: an exclusion predicate built once from a collection of
 literal names and search patterns, then applied to bare names or to
 (name, value) pairs.
 */
module NameFilters {
  import opened Wrappers

  /** One element of the collection a filter is built from. A pattern is
      kept abstract: `search(name)` says whether it is found in `name`. */
  datatype FilterItem =
    | Literal(name: string)
    | Pattern(search: string -> bool)
    | Unsupported   // any other value, such as the integer 1

  /** Construction fails on the first unsupported element, at this position. */
  datatype FilterError = TypeError(position: nat)

  /** The constructed filter: the literal names and the patterns it excludes. */
  datatype NameFilter = NameFilter(names: set<string>, patterns: seq<string -> bool>)

  /** The filter built from an empty collection: it excludes nothing. */
  const KeepAll := NameFilter({}, [])

  /** Whether one element of the collection excludes `name`. */
  predicate Excludes(item: FilterItem, name: string)
  {
    match item
    case Literal(n) => n == name
    case Pattern(search) => search(name)
    case Unsupported => false
  }

  /** The filter's verdict: true keeps the name. */
  predicate KeepName(f: NameFilter, name: string)
  {
    name !in f.names && forall i :: 0 <= i < |f.patterns| ==> !f.patterns[i](name)
  }

  /** `create_name_filter`: literal names go to the exclusion set, patterns to
      the pattern list, and any other element makes construction fail, before
      anything is filtered. */
  function CreateNameFilter(items: seq<FilterItem>): (r: Result<NameFilter, FilterError>)
    ensures r.Failure? <==> exists i :: 0 <= i < |items| && items[i].Unsupported?
    ensures r.Failure? ==> r.error.position < |items| && items[r.error.position].Unsupported?
    ensures r.Failure? ==> forall i :: 0 <= i < r.error.position ==> !items[i].Unsupported?
    ensures r.Success? ==>
              forall name :: KeepName(r.value, name) <==> forall i :: 0 <= i < |items| ==> !Excludes(items[i], name)
  {
    if |items| == 0 then Success(KeepAll)
    else
      match CreateNameFilter(items[1..])
      case Failure(e) =>
        if items[0].Unsupported? then Failure(TypeError(0)) else Failure(TypeError(e.position + 1))
      case Success(f) =>
        match items[0]
        case Unsupported => Failure(TypeError(0))
        case Literal(n) =>
          var g := f.(names := f.names + {n});
          assert forall name :: KeepName(g, name) <==> n != name && KeepName(f, name);
          Success(g)
        case Pattern(search) =>
          var g := f.(patterns := [search] + f.patterns);
          assert forall name :: KeepName(g, name) <==> !search(name) && KeepName(f, name) by {
            forall name ensures KeepName(g, name) <==> !search(name) && KeepName(f, name) {
              assert g.patterns[0] == search;
              assert forall i :: 0 <= i < |f.patterns| ==> g.patterns[i + 1] == f.patterns[i];
              if KeepName(g, name) {
                assert !g.patterns[0](name);
                forall i | 0 <= i < |f.patterns| ensures !f.patterns[i](name) {
                  assert !g.patterns[i + 1](name);
                }
              }
              if !search(name) && KeepName(f, name) {
                forall i | 0 <= i < |g.patterns| ensures !g.patterns[i](name) {
                  if i > 0 {
                    assert g.patterns[i] == f.patterns[i - 1];
                  }
                }
              }
            }
          }
          Success(g)
  }

  /** The filter built from one literal name excludes exactly that name. */
  lemma {:induction false} FilterOfOneName(n: string)
    ensures CreateNameFilter([Literal(n)]) == Success(NameFilter({n}, []))
  {
    assert [Literal(n)][1..] == [];
    assert {} + {n} == {n};
  }

  /** What the filter predicate is applied to: a bare name, or a (name, value)
      pair whose first component is the name. */
  datatype Subject<V> = Bare(name: string) | Paired(name: string, value: V)

  /** `filter(name_filter, subjects)`: the subjects whose name is kept, in order. */
  function Apply<V>(f: NameFilter, subjects: seq<Subject<V>>): (r: seq<Subject<V>>)
    ensures |r| <= |subjects|
  {
    if |subjects| == 0 then []
    else (if KeepName(f, subjects[0].name) then [subjects[0]] else []) + Apply(f, subjects[1..])
  }

  /** Filtering keeps exactly the subjects whose names the filter keeps. */
  lemma {:induction false} ApplyMembers<V>(f: NameFilter, subjects: seq<Subject<V>>)
    ensures forall i :: 0 <= i < |Apply(f, subjects)| ==> Apply(f, subjects)[i] in subjects && KeepName(f, Apply(f, subjects)[i].name)
    ensures forall i :: 0 <= i < |subjects| && KeepName(f, subjects[i].name) ==> subjects[i] in Apply(f, subjects)
    decreases |subjects|
  {
    if |subjects| > 0 {
      ApplyMembers(f, subjects[1..]);
      assert forall i :: 0 < i < |subjects| ==> subjects[i] == subjects[1..][i - 1];
    }
  }

  /** Filtering preserves order: it distributes over concatenation. */
  lemma {:induction false} ApplyAppend<V>(f: NameFilter, a: seq<Subject<V>>, b: seq<Subject<V>>)
    ensures Apply(f, a + b) == Apply(f, a) + Apply(f, b)
    decreases |a|
  {
    if |a| == 0 {
      assert a + b == b;
    } else {
      assert (a + b)[1..] == a[1..] + b;
      ApplyAppend(f, a[1..], b);
    }
  }

  /** The subjects at even positions, `s[::2]`. */
  function Evens<T>(s: seq<T>): (r: seq<T>)
    ensures |r| == (|s| + 1) / 2
    ensures forall i :: 0 <= i < |r| ==> r[i] == s[2 * i]
  {
    if |s| <= 1 then s else [s[0]] + Evens(s[2..])
  }

  /** The subjects at odd positions, `s[1::2]`. */
  function Odds<T>(s: seq<T>): (r: seq<T>)
    ensures |r| == |s| / 2
    ensures forall i :: 0 <= i < |r| ==> r[i] == s[2 * i + 1]
  {
    if |s| <= 1 then [] else [s[1]] + Odds(s[2..])
  }

  /** A filter that keeps exactly the subjects at even positions leaves `s[::2]`. */
  lemma {:induction false} KeepEvenPositions<V>(f: NameFilter, s: seq<Subject<V>>)
    requires forall i :: 0 <= i < |s| ==> (KeepName(f, s[i].name) <==> i % 2 == 0)
    ensures Apply(f, s) == Evens(s)
    decreases |s|
  {
    if |s| == 1 {
      assert Apply(f, s) == [s[0]] + Apply(f, s[1..]);
    } else if |s| >= 2 {
      var t := s[2..];
      forall i | 0 <= i < |t| ensures KeepName(f, t[i].name) <==> i % 2 == 0 {
        assert t[i] == s[i + 2];
      }
      KeepEvenPositions(f, t);
      assert s == [s[0]] + [s[1]] + t;
      ApplyAppend(f, [s[0]] + [s[1]], t);
      ApplyAppend(f, [s[0]], [s[1]]);
      assert Apply(f, [s[1]]) == [] by {
        assert !KeepName(f, s[1].name);
        assert Apply(f, [s[1]]) == [] + Apply(f, []);
      }
      assert Apply(f, [s[0]]) == [s[0]] by {
        assert Apply(f, [s[0]]) == [s[0]] + Apply(f, []);
      }
    }
  }

  predicate DistinctSeq<T(==)>(s: seq<T>)
  {
    forall i, j :: 0 <= i < j < |s| ==> s[i] != s[j]
  }

  /** In a sequence without repetitions, an element is among the odd-position
      ones exactly when it sits at an odd position. */
  lemma {:induction false} InOddsIffOddPosition<T>(s: seq<T>, i: nat)
    requires DistinctSeq(s)
    requires i < |s|
    ensures s[i] in Odds(s) <==> i % 2 == 1
  {
    var o := Odds(s);
    if i % 2 == 1 {
      assert o[(i - 1) / 2] == s[i];
    } else {
      forall k | 0 <= k < |o| ensures o[k] != s[i] {
        assert o[k] == s[2 * k + 1];
      }
    }
  }

  /** The literal-name collection `names[1::2]`. */
  function LiteralsOf(names: seq<string>): (r: seq<FilterItem>)
    ensures |r| == |names|
    ensures forall k :: 0 <= k < |r| ==> r[k] == Literal(names[k])
  {
    if |names| == 0 then [] else [Literal(names[0])] + LiteralsOf(names[1..])
  }

  /** A filter built from the odd-position names of a repetition-free list
      keeps exactly the even-position subjects of any list whose names are
      that list, in order: bare names and (name, value) pairs alike. */
  lemma {:induction false} ExcludeOddNames<V>(names: seq<string>, subjects: seq<Subject<V>>)
    requires DistinctSeq(names)
    requires |subjects| == |names|
    requires forall i :: 0 <= i < |subjects| ==> subjects[i].name == names[i]
    ensures CreateNameFilter(LiteralsOf(Odds(names))).Success?
    ensures Apply(CreateNameFilter(LiteralsOf(Odds(names))).value, subjects) == Evens(subjects)
  {
    var items := LiteralsOf(Odds(names));
    var f := CreateNameFilter(items).value;
    forall i | 0 <= i < |subjects| ensures KeepName(f, subjects[i].name) <==> i % 2 == 0 {
      InOddsIffOddPosition(names, i);
      var o := Odds(names);
      if names[i] in o {
        var k :| 0 <= k < |o| && o[k] == names[i];
        assert Excludes(items[k], names[i]);
      }
    }
    KeepEvenPositions(f, subjects);
  }
}
