# IFUNC tabulated-delay component, modelled in Dafny

PINT is a pulsar timing package. Its timing models are built from
components, and each component contributes a delay or a phase. This project
models one of them, `IFunc` (`src/pint/models/ifunc.py`). It describes timing
noise as a table of parameters `IFUNC1`, `IFUNC2`, …, `IFUNCn`. Each parameter
holds a pair: an epoch (MJD) and a delay value (seconds). The table is used in
three steps:

- **setup** finds the indices of the `IFUNC` parameters and sorts them. The
  sorted list must be `range(1, max + 1)`. If it is not, setup raises
  `MissingParameter("IFunc", "IFUNC<k>")` for a missing index. If it is, setup
  records the number of terms (`num_ifunc_terms`).
- **print_par** writes the parameter-file lines of `IFUNC1..IFUNCn`, in index
  order, one after the other.
- **ifunc_delay** builds two parallel arrays, epochs and values, in index
  order. For each TOA time it returns minus the value of `numpy.interp` at
  that time. That is linear interpolation between table points, with the first
  or last value held constant outside the table.

Files:

- `wrappers.dfy`: `Option` and `Result`.
- `index_sets.dfy` (module `IndexSets`): the run `1..max` as a set, the largest
  and smallest element of a set, and `SortedIndices`. `SortedIndices` turns the
  set of discovered indices into the ascending list that `list(keys).sort()`
  yields. `IncreasingUnique` proves that an ascending list is fixed by its
  elements. So comparing the sorted list with `range(1, max + 1)` is the same
  as comparing the two sets.
- `par_names.dfy` (module `ParNames`): the decimal text of `"IFUNC%d" % k`, and
  the proof that it reads back, so distinct indices get distinct names.
- `interpolation.dfy` (module `Interpolation`): `numpy.interp` for one query
  point, as a pure function over `real`, with its node, edge and
  between-nodes lemmas.
- `ifunc.dfy` (module `IFuncComponent`):
  - `SetupResult`: the relation between discovered indices and the result of
    setup, with its lemmas.
  - `ParLines` and `Concat`: the text `print_par` writes.
  - `TableEpochs`, `TableValues` and `DelayAt`: the delay table.
  - class `IFunc`: the fields `terms` (the discovered parameters by index),
    `numIfuncTerms` and `barycentricTime`, and the methods `Setup`,
    `PrintPar`, `BuildTable` and `IfuncDelay`.

Modelling decisions:

- **Inputs.** The discovered parameter mapping is the constructor's argument,
  `map<int, Term>`. `Term` is the (epoch, value) pair.
- **as_parfile_line.** Its text is a function parameter,
  `line: (int, Term) -> string`. The index is passed so the line can carry the
  name `IFUNC<k>`.
- **TOAs.** They enter only as the sequence of their MJD values. That is all
  `ifunc_delay` reads (`toas.get_mjds().value`).
- **The count before setup.** `numIfuncTerms` is `None` until a setup
  succeeds. This matches the Python attribute, which does not exist until
  then. A failed setup leaves it unchanged.
- **Setup failures.** Setup fails in three ways:
  - `MissingParameter` when an index in `1..max` is absent.
  - `EmptyIndexSet` when no index was discovered, because `max()` of an empty
    list raises `ValueError`.
  - `NoMissingIndex` when the list is not `range(1, max + 1)` but no index in
    `1..max` is missing. This happens if an index 0 or a negative index was
    discovered. Then `diff` is empty and `diff[0]` raises `IndexError`
    (`SetupIndexZero`).
- **Which missing index is reported.** One might expect the smallest missing
  index to be reported. The code reports `diff[0]`, the first element of a
  Python set. CPython's order for that set follows hash-table slots and is
  not always ascending. The model follows the code: `SetupResult` lets any
  missing index in `1..max` be the reported one. It is exact when only one
  index is missing (`SetupNamesRemovedIndex`).
- **The delay table.** The code does not sort the table by epoch, and it
  does not reject a table with fewer than two points. It keeps index order,
  and with one point `numpy.interp` returns that value everywhere. The model
  follows the code. `numpy.interp` assumes ascending
  sample points and does not check them, so `IfuncDelay` requires the epochs,
  in index order, to be strictly ascending.

## Model

| member | source | states |
|---|---|---|
| `IndexSets.SortedIndices` | src/pint/models/ifunc.py:26-27 | the discovered indices as a list in strictly ascending order, holding exactly the discovered indices |
| `IndexSets.InOrderShape` | src/pint/models/ifunc.py:28 | `range(1, top + 1)` is strictly ascending and holds exactly the integers 1..top |
| `IndexSets.LastIsMax` | src/pint/models/ifunc.py:27-28 | for a sorted list, `max(ifunc_terms)` is its last element |
| `IndexSets.IncreasingUnique` | src/pint/models/ifunc.py:27-29 | two ascending lists with the same elements are equal, so the list comparison on line 29 is the set comparison keys = {1..max} |
| `IndexSets.RangeSize` | src/pint/models/ifunc.py:28-33 | the run 1..n has n members, so on success `len(ifunc_terms)` equals the largest index |
| `ParNames.DecimalString` | src/pint/models/ifunc.py:31 | the `%d` text of an index is non-empty, all digits, and has no leading zero |
| `ParNames.DecimalRoundTrip` | src/pint/models/ifunc.py:31 | reading the `%d` text of an index back gives the index |
| `ParNames.PrefixNameInjective` | src/pint/models/ifunc.py:37-38 | two indices with the same `IFUNC%d` name are equal, so each name denotes one term |
| `IFuncComponent.SetupSucceedsIff` | src/pint/models/ifunc.py:24-33 | setup succeeds exactly when the index set is non-empty and equals {1..|keys|}; then the recorded count is the number of terms, which is also the largest index and at least 1 |
| `IFuncComponent.SetupReportsGap` | src/pint/models/ifunc.py:28-31 | for positive indices that are not a run 1..m, setup raises `MissingParameter` with component `"IFunc"` and the name `IFUNC<k>` of an index k in 1..max that was not discovered |
| `IFuncComponent.SetupNamesRemovedIndex` | src/pint/models/ifunc.py:29-31 | removing a non-final index k from 1..n makes setup raise `MissingParameter("IFunc", "IFUNC<k>")` for exactly that k |
| `IFuncComponent.SetupIndexZero` | src/pint/models/ifunc.py:29-31 | for indices {0, 1, 2} the lists differ but no index of 1..max is missing, so `diff[0]` fails (IndexError) and no MissingParameter is raised |
| `IFuncComponent.CheckContiguity` | src/pint/models/ifunc.py:26-31 | sort, compare with `range(1, max + 1)` and pick from the difference: the result is one that `SetupResult` allows for the discovered indices |
| `IFuncComponent.IFunc.constructor` | src/pint/models/ifunc.py:14-22 | a new component holds the discovered parameters, has no term count yet and has recorded no times |
| `IFuncComponent.IFunc.Setup` | src/pint/models/ifunc.py:24-33 | the result is allowed by `SetupResult`; it is a success exactly when the indices are {1..|keys|}; on success `numIfuncTerms` becomes the number of terms; on failure it is unchanged; nothing else changes |
| `IFuncComponent.ParLinesAt` | src/pint/models/ifunc.py:37-42 | the lines written are one per index 1..n, and entry k-1 is the line of `IFUNC<k>` |
| `IFuncComponent.ParLinesPrefix` | src/pint/models/ifunc.py:40-42 | the first j lines are the lines of `IFUNC1..IFUNCj`, so each step of the loop only appends |
| `IFuncComponent.ConcatAppend` | src/pint/models/ifunc.py:40-42 | `result +=` over two lists in turn gives their two texts one after the other |
| `IFuncComponent.ConcatPlacesEntry` | src/pint/models/ifunc.py:40-42 | in the concatenated text, entry i sits right after the text of entries 0..i-1 |
| `IFuncComponent.PrintParOrder` | src/pint/models/ifunc.py:35-44 | the text holds the line of `IFUNC<k>` right after the lines of `IFUNC1..IFUNC<k-1>`: each term once, in increasing index order |
| `IFuncComponent.IFunc.PrintPar` | src/pint/models/ifunc.py:35-44 | after setup, returns the lines of `IFUNC1..IFUNCn` (n = `num_ifunc_terms`) concatenated in index order |
| `IFuncComponent.IFunc.BuildTable` | src/pint/models/ifunc.py:53-60 | the epoch and value arrays both have length `num_ifunc_terms`; entry i is the pair of `IFUNC(i+1)`, in index order and not re-sorted by epoch |
| `IFuncComponent.IFunc.IfuncDelay` | src/pint/models/ifunc.py:46-63 | records the query times in `barycentricTime` (its only state change); returns one delay per query time, in the same order, each minus the interpolated table value at that time |
| `Interpolation.InterpAtNode` | src/pint/models/ifunc.py:62 | interpolating at sample point k gives exactly the table value k |
| `Interpolation.InterpFlatOutside` | src/pint/models/ifunc.py:62 | at or before the first sample point the first value is returned; at or after the last, the last value |
| `Interpolation.InterpBetween` | src/pint/models/ifunc.py:62 | strictly between sample points k and k+1 the value is `fp[k] + (t - xp[k])·(fp[k+1]-fp[k])/(xp[k+1]-xp[k])` |
| `Interpolation.LineBetween` | src/pint/models/ifunc.py:62 | a point of the straight line strictly between two sample points lies between their two values |
| `Interpolation.InterpBetweenBounds` | src/pint/models/ifunc.py:62 | strictly between sample points k and k+1 the value lies between `fp[k]` and `fp[k+1]` |
| `Interpolation.InterpExample` | src/pint/models/ifunc.py:62 | for table (0,1),(10,3): 2 at t=5, 1 at t=-5, 3 at t=15 |
| `IFuncComponent.DelayAtEpoch` | src/pint/models/ifunc.py:62 | at the epoch of `IFUNC<k>` the delay is minus its value |
| `IFuncComponent.DelayFlatOutside` | src/pint/models/ifunc.py:62 | at or before the epoch of `IFUNC1` the delay is minus its value; at or after the epoch of `IFUNCn`, minus the value of `IFUNCn` |
| `IFuncComponent.DelayBetweenEpochs` | src/pint/models/ifunc.py:62 | strictly between the epochs of `IFUNC<k>` and `IFUNC<k+1>`, the delay is minus the straight-line value and lies between their negated values |
| `IFuncComponent.DelayExample` | src/pint/models/ifunc.py:62 | with `IFUNC1 = (0, 1)` and `IFUNC2 = (10, 3)`, the delay is -2 at t=5, -1 at t=-5 and -3 at t=15 |

## Left out

- `super().setup()` (line 25) and the `DelayComponent` base class: `timing_model.py` is not part of this model.
- `get_prefix_mapping_component` and `getattr(self, "IFUNC%d")` (lines 26, 41, 50): parameter discovery lives in `timing_model.py`. The discovered mapping from index to parameter is the component's `terms` field.
- `add_param` and the registration of `ifunc_delay` in `delay_funcs_component` (lines 17-21): declaring parameters and the aggregator's delay list belong to `parameter.py` and `timing_model.py`. Only the `category` constant is kept.
- `IFunc.constructor`: takes the discovered parameters as its argument. `__init__` (line 17) declares exactly one parameter, `IFUNC1`, with no value. So in the source the component always holds `IFUNC1` unless it is removed, and a parameter file without `IFUNC1` may get past `setup` with `IFUNC1` declared but unset. Whether it does depends on `get_prefix_mapping_component`, which is not part of this model. The model has no such hidden `IFUNC1`: for indices {2..n} it reports `MissingParameter("IFunc", "IFUNC1")`.
- `as_parfile_line` is defined in `parameter.py`. It is the function parameter `line`, whose text is not modelled.
- Units (`u.s`, `.value`) and the long-double to `float` conversion (lines 57-58, 62): every epoch and value is an exact `real`. Rounding is not modelled.
- A parameter with no value: `terms` always holds a pair, so the error from unpacking `ft.quantity` when it is `None` (line 56) is not modelled.
- `PrintPar`, `BuildTable`, `IfuncDelay`: require `Ready()`, a successful `Setup` first. In the source, `self.num_ifunc_terms` does not exist before a successful `setup`, so `print_par` (line 38) and `ifunc_delay` (line 49) raise `AttributeError`. `Ready()` excludes that error path, and the model does not represent it.
- `acc_delay` (line 46) is unused by the source and is not a parameter of `IfuncDelay`.
- `IfuncDelay`: requires the table epochs to be strictly ascending in index order. `numpy.interp` gives no defined result otherwise, and the source neither sorts nor checks them.
- `SetupResult`: reports any missing index in `1..max`, not specifically the smallest. The source reports the first element of a Python set, whose order depends on CPython's hashing.
- `numpy.interp`'s optional `left`, `right` and `period` arguments are not used by the source and are not modelled. The vectorised call is modelled one query point at a time.
