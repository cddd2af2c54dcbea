# botorch numpy converter, modelled in Dafny

This project models the part of botorch that marshals a torch model's parameters into one
flat vector for a numerical optimizer and back (`botorch.optim.numpy_converter`). The model
follows the converter's behaviour as its unit test exercises it:

- `create_name_filter` builds an exclusion predicate from literal names and compiled patterns.
  Any other element fails construction with a `TypeError`.
- `get_parameters_and_bounds` enumerates the parameters the filter keeps, in discovery order,
  together with the bound each one's constraint declares. A module that can only enumerate
  its parameters, not their constraints, yields no bounds.
- `module_to_array` concatenates the kept parameters' elements into one vector. It returns the
  layout dictionary (name to shape and precision/storage tag) that write-back needs. It also
  returns per-element lower and upper bound vectors, which are absent when every bound is
  (-inf, +inf). Bounds given by the caller override the declared ones.
- `set_params_with_array` walks the layout with a running offset. Each entry's block of the
  vector becomes the new elements of the parameter of that name.
- The helper `_get_index` computes the offset of a name in the layout.

Modules, one file each:

- `Wrappers` (wrappers.dfy): `Option`, `Result`.
- `Tensors` (tensors.dfy): parameters, shapes, element counts, bounds, models.
- `Layout` (layout.dfy): the layout, offsets, flattening and unflattening of blocks, and `GetIndex`.
- `NameFilters` (name_filter.dfy): filter construction and filter application.
- `Extraction` (extraction.dfy): the kept parameters and the declared-bound dictionary.
- `Flatten` (flatten.dfy): `ModuleToArray` and its bound vectors.
- `WriteBack` (write_back.dfy): `SetParamsWithArray`.
- `RoundTrip` (roundtrip.dfy): flattening and write-back undo each other.
- `Scenarios` (scenarios.dfy): the unit test's concrete situations. These use an exact-GP
  marginal log likelihood with a noise of shape [1], an RBF length scale of shape [1, 3] and
  a scalar constant mean.

A tensor is its shape and its elements in row-major order. Element values are mathematical
reals. A bound side is a real or one of the two infinities (`Ext`).

## Model

| member | source | states |
|---|---|---|
| Layout.GetIndex | test/optim/test_numpy_converter.py:28-34 | Returns the summed element counts of the entries before the first entry with the given name, which is that entry's offset in the flat vector. For an absent name it returns the whole vector length. |
| Layout.SlicesJoin | test/optim/test_numpy_converter.py:223-242 | Unflattening a concatenation of blocks that fit a layout gives back exactly those blocks. |
| Layout.JoinSlices | test/optim/test_numpy_converter.py:244-246 | Re-flattening the blocks cut from a vector gives back the vector's front, as long as the layout's total. |
| Layout.SlicesAt | test/optim/test_numpy_converter.py:223-242 | Block `i` is the slice of the vector that starts at entry `i`'s offset and is as long as its element count. |
| Layout.JoinPlacement | test/optim/test_numpy_converter.py:88-97 | Element `k` of block `i` sits at position offset(i) + k of the concatenation. |
| Layout.OffsetPrefix | test/optim/test_numpy_converter.py:28-34 | The offset of entry `i` is the total element count of the first `i` entries. |
| NameFilters.CreateNameFilter | test/optim/test_numpy_converter.py:39-44 | Construction fails exactly when some element is neither a name nor a pattern, and it reports the first such position. On success, a name is kept exactly when no element excludes it, either by equality or because the pattern is found in it. |
| Scenarios.TypeErrorScenario | test/optim/test_numpy_converter.py:39-40 | ("foo", pattern, 1) fails with a TypeError at the integer. |
| NameFilters.ExcludeOddNames | test/optim/test_numpy_converter.py:42-47 | A filter built from the odd-position names of a repetition-free list keeps exactly the even-position subjects, in order, for bare names and for (name, value) pairs alike. |
| NameFilters.KeepEvenPositions | test/optim/test_numpy_converter.py:44 | A filter that keeps exactly the even positions yields `s[::2]`. |
| NameFilters.ApplyMembers | test/optim/test_numpy_converter.py:44-47 | Filtering keeps a subject exactly when the filter keeps its name. |
| NameFilters.ApplyAppend | test/optim/test_numpy_converter.py:44-47 | Filtering preserves order: it distributes over concatenation. |
| NameFilters.InOddsIffOddPosition | test/optim/test_numpy_converter.py:43 | In a repetition-free sequence, an element is in `s[1::2]` exactly when its position is odd. |
| Extraction.KeptMembers | test/optim/test_numpy_converter.py:113-121 | The kept parameters are exactly those whose names the filter keeps. |
| Extraction.KeptDistinct | test/optim/test_numpy_converter.py:94-97 | Filtering keeps names distinct and tensors well-shaped. |
| Extraction.DeclaredBoundsSpec | test/optim/test_numpy_converter.py:60-65 | Every key of the bound dictionary is a parameter that declares that bound. With distinct names, exactly the parameters that declare a bound have a key, mapped to their bound. |
| Extraction.GetParametersAndBounds | test/optim/test_numpy_converter.py:60-71 | The parameters are those the filter keeps, with distinct names. A kept parameter has a bound exactly when the model enumerates constraints and the parameter declares one, and the entry is that declared bound. A model without constraint enumeration has no bounds. |
| Extraction.WithoutConstraintEnumeration | test/optim/test_numpy_converter.py:67-71 | A model that only enumerates its parameters gives the same parameter dictionary and an empty bound dictionary. |
| Extraction.BoundsNoMoreThanParams | test/optim/test_numpy_converter.py:61 | There are never more bounds than kept parameters. |
| Scenarios.ExtractionScenario | test/optim/test_numpy_converter.py:57-71 | A Gaussian likelihood yields one parameter and one bound, (-inf, +inf), keyed by its name. The parameter-only mock yields the same parameters and no bounds. |
| Flatten.ModuleToArray | test/optim/test_numpy_converter.py:87-99 | Fails exactly when some exclusion element is unsupported. On success the vector is as long as the layout's total, the bound vectors, when present, are as long as the vector, and no name has two layout entries. |
| Flatten.FlattenWith | test/optim/test_numpy_converter.py:87-88 | The vector length is the layout's total, and the bound vectors match it. There are no more layout entries than parameters, and no name has two entries, as in the layout dictionary. |
| Flatten.ModuleToArrayKeeps | test/optim/test_numpy_converter.py:113-121 | A parameter has a layout entry exactly when no exclusion element excludes its name. |
| Flatten.LayoutMembership | test/optim/test_numpy_converter.py:94 | A parameter has a layout entry exactly when the filter keeps its name. |
| Flatten.FlattenPlacement | test/optim/test_numpy_converter.py:87-97 | Layout entry `i` describes the `i`-th kept parameter (name, shape, tag). Element `k` of that parameter sits at the entry's offset plus `k`. |
| Flatten.BoundsPlacement | test/optim/test_numpy_converter.py:140-161 | Each element of a kept parameter carries that parameter's bound: the override when given, with a missing side unbounded; otherwise the declared bound of a model that enumerates constraints; otherwise (-inf, +inf). |
| Flatten.UnconstrainedCollapses | test/optim/test_numpy_converter.py:87-99 | Without overrides, bound vectors are absent exactly when the model cannot enumerate constraints, or every kept parameter that declares a bound declares (-inf, +inf). |
| Flatten.UnboundedOverridesCollapse | test/optim/test_numpy_converter.py:163-170 | Overrides of (-inf, +inf) for every parameter yield no bound vectors, whatever the model declares. |
| Flatten.NoBoundVectorsIff | test/optim/test_numpy_converter.py:99-170 | Bound vectors are absent exactly when every kept parameter ends up with (-inf, +inf). A parameter's bound is its override when given, with a missing side unbounded; otherwise its declared bound, when the model enumerates constraints; otherwise (-inf, +inf). |
| Flatten.ExcludeNothing | test/optim/test_numpy_converter.py:87-97 | With nothing excluded, the layout is every parameter's entry, and the vector is their elements, in order. |
| Flatten.FlattenExcluding | test/optim/test_numpy_converter.py:113-121 | Excluding one parameter's name flattens every other parameter, in order. |
| Flatten.ExcludeOneLayout | test/optim/test_numpy_converter.py:113-121 | Excluding one parameter by name removes exactly its layout entry. |
| Flatten.ExcludeOneVector | test/optim/test_numpy_converter.py:113-116 | Excluding one parameter by name removes exactly its block of the vector, which shrinks by its element count. |
| Flatten.KeptWithoutOne | test/optim/test_numpy_converter.py:113-115 | Filtering out the name of parameter `j` of a distinct-named list keeps every parameter but that one. |
| WriteBack.FindFirst | test/optim/test_numpy_converter.py:223-224 | Lookup by name finds the first parameter of that name, and finds nothing only when no parameter has that name. |
| WriteBack.WriteFromSucceeds | test/optim/test_numpy_converter.py:223 | The write-back walk succeeds exactly when every entry names a parameter of the same shape and the vector covers the whole layout. |
| WriteBack.WrittenAtOffset | test/optim/test_numpy_converter.py:223-242 | A parameter receives the block at the offset of the first entry naming it. Without such an entry it is unchanged, and only its elements ever change. |
| WriteBack.WriteFromFrame | test/optim/test_numpy_converter.py:223-224 | The walk changes only elements: the same parameters in the same order, with the same names, shapes, tags and declared bounds, still well-shaped. |
| WriteBack.WriteFromContents | test/optim/test_numpy_converter.py:223-242 | With distinct names on both sides, the walk leaves every parameter with the block of its entry. |
| WriteBack.WritableByNames | test/optim/test_numpy_converter.py:223 | Whether a layout can be written depends only on the model's names and shapes. |
| WriteBack.SetParamsWithArray | test/optim/test_numpy_converter.py:223-242 | Succeeds exactly when every entry names a parameter of its shape and the vector covers the layout. Only elements change. Validity is preserved. With distinct names, each parameter holds the block of its entry. |
| RoundTrip.WriteThenFlatten | test/optim/test_numpy_converter.py:244-246 | Writing a vector back along a flattening's layout succeeds whenever the vector is long enough. Flattening again returns the vector's front, with the same layout and bound vectors. |
| RoundTrip.WriteThenFlattenSameLength | test/optim/test_numpy_converter.py:244-246 | A vector exactly as long as the flat vector comes back unchanged. |
| RoundTrip.FlattenThenWrite | test/optim/test_numpy_converter.py:220-223 | Writing a model's own flat vector back along its own layout leaves the model as it was. |
| RoundTrip.FlattenWritten | test/optim/test_numpy_converter.py:244-246 | Writing a vector at least as long as the flat vector back along a flattening's layout keeps the model valid (distinct names, well-shaped tensors). Flattening the result again gives the vector's front, with the layout and bound vectors unchanged. |
| RoundTrip.WrittenValid | test/optim/test_numpy_converter.py:220-224 | Writing a long-enough vector back along a flattening's layout succeeds, gives every parameter the block of its entry and keeps the model valid. |
| RoundTrip.KeptWrittenAll | test/optim/test_numpy_converter.py:244-245 | Filtering commutes with write-back. |
| RoundTrip.KeptWritable | test/optim/test_numpy_converter.py:220-223 | The layout of the kept parameters can always be written back into their model. |
| RoundTrip.WrittenValues | test/optim/test_numpy_converter.py:223-242 | Writing along a list's own layout gives each parameter its unflattened block and keeps the layout. |
| RoundTrip.DeclaredBoundsFrame | test/optim/test_numpy_converter.py:245 | The declared-bound dictionary depends only on names and declared bounds. |
| Scenarios.GpOffsets | test/optim/test_numpy_converter.py:89-97 | In the test layout, the noise starts at 0, the length scale at 1 and the constant at 4, with five elements in all. |
| Scenarios.GetIndexScenario | test/optim/test_numpy_converter.py:159 | `_get_index` on the test layout gives 0 for the noise and 4 for the constant. |
| Scenarios.BasicScenario | test/optim/test_numpy_converter.py:87-99 | The test model flattens to five zeros along the layout noise [1], length scale [1, 3], constant scalar, with no bound vectors. |
| Scenarios.ExcludeScenario | test/optim/test_numpy_converter.py:113-126 | Excluding the constant mean leaves four zeros, the noise and length-scale entries, and no bound vectors. |
| Scenarios.ManualBoundsScenario | test/optim/test_numpy_converter.py:140-161 | An override of (0.1, None) for the length scale gives lower bounds [l, 0.1, 0.1, 0.1, -inf] and upper bounds all +inf. Here l is the noise's declared lower bound: -inf, or 1e-5 as at lines 177-179 and 186-204. |
| Scenarios.AllInfiniteOverridesScenario | test/optim/test_numpy_converter.py:163-170 | Overriding every parameter with (-inf, +inf) gives no bound vectors. |
| Scenarios.GpDeclared | test/optim/test_numpy_converter.py:177-179 | The test model's declared bounds are the noise's and the length scale's. The constant mean has no constraint. |
| Scenarios.SetParametersScenario | test/optim/test_numpy_converter.py:223-246 | Writing [1, 2, 3, 4, 5] gives the noise [1], the length scale [2, 3, 4] and the constant 5. Flattening again gives [1, 2, 3, 4, 5]. |
| Scenarios.WriteFiveOnGp | test/optim/test_numpy_converter.py:223-246 | Any five values written back land in order and come back out of the next flattening. |
| Scenarios.WrittenOnGp | test/optim/test_numpy_converter.py:224-242 | Each test parameter receives its slice: 0..1, 1..4 and 4..5. |
| Scenarios.TestNamesDistinct | test/optim/test_numpy_converter.py:89-93 | The three dotted parameter paths are distinct. |

## Left out

- Building the torch/gpytorch models (likelihood, kernel, mean, marginal log likelihood) is not modelled. A model is its ordered list of named parameters.
- How a constraint turns into a declared bound is an input (`Param.declared`). A constraint applied through a transform reports (-inf, +inf). An untransformed one reports its own bounds.
- The `requires_grad` selection of `get_parameters_and_bounds` is not modelled. Every parameter is eligible.
- Precision and device are carried through as an opaque tag (`Meta`). Float32 rounding of the written elements and `np.allclose` tolerances are not modelled, and element values are reals.
- Regular expressions are not modelled. A compiled pattern is an abstract predicate that says whether the pattern is found in a name.
- Broadcasting in `copy_` is not modelled. A shape mismatch is an error (`ShapeMismatch`).
- When write-back fails part way, the model returns only the error and not the partly updated module that in-place mutation would leave.
- Bound overrides: a caller's override replaces the declared bound of that parameter as a whole, and a missing (None) side means unbounded on that side. Inheriting the declared side instead would give the same results in every test situation, because the only overridden parameter declares (-inf, +inf). This model follows the dictionary-merge behaviour.
- WriteBack.SetParamsWithArray: a vector longer than the layout's total is accepted and its tail ignored, because the running-offset walk never checks the end. A stricter length check would reject it.
- The names in `Scenarios` are abstract (any three distinct names). `TestNames` holds the real dotted paths and `TestNamesDistinct` shows they qualify.
