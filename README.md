# ardent: argument validation, registration presets and the Transform object

ardent registers 3-d brain images with the LDDMM method. This project models
the part of ardent that is not numerical:

- the argument validators of `ardent/utilities.py`.
  - `_validate_scalar_to_multi` turns a scalar or a vector into a vector of a
    given length.
  - `_validate_ndarray` casts an array and then checks it: the object dtype,
    the number of dimensions (with the 0-d to 1-d upcast) and a minimum
    number of dimensions. It can also broadcast the array to a shape.
- the preset table of `ardent/presets/registration_parameters.py`, and the
  lookup that ignores case and surrounding whitespace.
- the `Transform` object of `ardent/transform.py`.
  - Registration collects the caller's parameters and drops every `None`.
  - It fills in the rest from a preset, then runs the solver.
  - It copies the six results into the object's attributes one by one.
  - `load` merges another object's attribute dictionary into this one.

Modules:

- `Outcomes`: `Option`, `Result`, and one `Error` per raise site. `Error.Class`
  gives the Python exception class of each one.
- `NdArrays`: an array is a shape plus its elements in row-major order.
  `BroadcastTo` follows NumPy's broadcasting rule: the shapes are aligned on
  the right, and every axis is 1 or matches.
- `Utilities`: the two validators.
- `Presets`: Python's `str.strip` and `str.lower`, the lookup, and the
  module-level table as the class `PresetRegistry`.
- `Transform`: parameter collection and merging, and the class `Transform`,
  whose fields are the attributes `register` and `load` assign in place.

Where the docstrings and the code disagree, the model follows the code:

- With `broadcast_to_shape`, the result of `_validate_ndarray` has the number
  of dimensions of that shape, which may be more than `required_ndim`.
  `ValidateNdarray` states `ndim == required_ndim` only when there is no
  broadcast, and `ndim >= required_ndim` when there is one.
- `transform.py` imports `get_registration_preset`, while the presets module
  defines `get_registration_presets`. The model takes them to be the same
  function.

## Model

| member | source | states |
|---|---|---|
| Utilities.SizeToInt | ardent/utilities.py:16-20 | `int(size)`: an integer is kept, a float gives its truncation toward zero (`Truncate`), and the TypeError is raised exactly when int() rejects the value |
| Utilities.Truncate | ardent/utilities.py:17 | Python's int() on a float rounds toward zero: for x >= 0 the result n satisfies n <= x < n + 1, and for x < 0 it satisfies n - 1 < x <= n |
| Utilities.ValidateScalarToMulti | ardent/utilities.py:7-56 | the checks in source order: size not an integer (TypeError), negative size (ValueError), a ValueError from the cast (reported as ValueError), other cast exceptions passed through, more than one dimension, a length that is neither 1 nor size, and a NaN (NotImplementedError). A success is a vector of exactly `size` elements with no NaN. A length-1 input gives `size` copies of its one element, and an input already of length `size` is returned unchanged. In the other direction: with a valid size and a successful cast, an accepted shape (a scalar, or a vector of length 1 or `size`) succeeds when it holds no NaN. With a positive size and a NaN, it fails with the NotImplementedError. With size 0, an accepted shape always gives the empty vector, even for a NaN, because `np.full(0, ...)` holds no element for `np.isnan` to find |
| Utilities.ScalarToMultiIdempotent | ardent/utilities.py:33-56 | feeding a validated vector back in, with the same size, returns it unchanged |
| Utilities.UpcastScalar | ardent/utilities.py:123-124 | `np.array([array])` on a 0-d array: a vector of length 1 holding its one element; any other array is left alone |
| Utilities.CheckArguments | ardent/utilities.py:79-100 | no error exactly when minimum_ndim is a non-negative int, required_ndim is None or a non-negative int, and dtype is None or a type. Every error is a TypeError or a ValueError. A non-int minimum_ndim is reported first, and a dtype that is not a type only when everything else is valid |
| Utilities.ValidateNdarray | ardent/utilities.py:59-138 | every raise site, in source order, gives its own error under its exact condition. These are: the argument errors (TypeError for a non-int minimum_ndim or required_ndim or a dtype that is not a type, ValueError for a negative one), which come before the array is looked at; the cast's TypeError and ValueError, and any other exception passed through; the forbidden object dtype; the ndim mismatch; and an ndim below the minimum after the upcast. Past every check, the result is the array (a 0-d array upcast to 1-d when 1 is required). With a shape, the call succeeds exactly when that array broadcasts to the shape, and it gives NumPy's ValueError otherwise. A success means the arguments were valid and the cast succeeded. An object dtype passes only when dtype is `object` or forbid_object_dtype is off. The only tolerated ndim mismatch is a 0-d array when 1 is required; any other mismatch is the ValueError. Without a broadcast, ndim equals required_ndim; with one, ndim is at least required_ndim. ndim is at least minimum_ndim. Without a broadcast the elements are the cast array's; with one, the shape is the requested one |
| Utilities.ValidateNdarrayIdempotent | ardent/utilities.py:106-138 | validating an already validated array with the same arguments returns it unchanged, when any broadcast shape has required_ndim axes |
| Utilities.ValidateNdarrayBroadcastsLast | ardent/utilities.py:134-136 | for every input, the call with a shape equals the call without it followed by `np.broadcast_to` of its result; an error before the broadcast is the same error |
| NdArrays.Full | ardent/utilities.py:38 | `np.full(size, x)`: a vector of length size with every element x |
| NdArrays.Broadcastable | ardent/utilities.py:136 | NumPy's broadcasting rule, axis by axis from the right; a shape that broadcasts never has more axes than its target |
| NdArrays.BroadcastableAligned | ardent/utilities.py:136 | the recursive rule is exactly the right-aligned one: `from` has at most as many axes as `to`, and each axis of `from` is 1 or equals the axis of `to` it is aligned with |
| NdArrays.SourceIndex | ardent/utilities.py:136 | to find where element k of the broadcast is read from: take the coordinates of k in `to`, drop the leading coordinates `from` lacks, use 0 on every axis where `from` has length 1, and flatten over `from`. The result is a valid position in the source array |
| NdArrays.Unflatten | ardent/utilities.py:136 | the coordinates of a flat index: one per axis, each below that axis's length |
| NdArrays.FlattenUnflatten | ardent/utilities.py:136 | flattening the coordinates of a flat index gives the index back |
| NdArrays.BroadcastTo | ardent/utilities.py:136 | `np.broadcast_to` plus `np.copy` succeed exactly when the shapes broadcast; otherwise NumPy raises its ValueError. The result has the requested shape and never fewer axes than the input. Element k is the source element at `SourceIndex` |
| NdArrays.BroadcastColumn | ardent/utilities.py:136 | the column [[x], [y]] broadcast to shape (2, 3) is [[x, x, x], [y, y, y]] |
| NdArrays.BroadcastToOwnShape | ardent/utilities.py:136 | broadcasting an array to its own shape returns the same array |
| NdArrays.BroadcastScalar | ardent/utilities.py:136 | a 0-d array broadcasts to any shape, and every element is its one value |
| NdArrays.FullIsBroadcast | ardent/utilities.py:38 | `np.full(n, [x])` equals the broadcast of the one-element vector to length n |
| Presets.GetRegistrationPresets | ardent/presets/registration_parameters.py:6-15 | success exactly when `preset.strip().lower()` is a key of the table, returning that key's entry; otherwise NotImplementedError naming the normalised preset and the known presets |
| Presets.Strip | ardent/presets/registration_parameters.py:9 | `str.strip()` over Python's whitespace set: the result is no longer than the input and has no whitespace at either end |
| Presets.Lower | ardent/presets/registration_parameters.py:9 | `str.lower()` on ASCII letters, keeping the length; `LowerChars` states which characters change |
| Presets.Normalize | ardent/presets/registration_parameters.py:9 | `preset.strip().lower()`: the key has no whitespace at either end and no upper-case letter |
| Presets.StripPadded | ardent/presets/registration_parameters.py:9 | whitespace around a string does not change what strip returns |
| Presets.StripIdempotent | ardent/presets/registration_parameters.py:9 | stripping twice is stripping once |
| Presets.StripLower | ardent/presets/registration_parameters.py:9 | stripping and lower-casing commute |
| Presets.LowerChars | ardent/presets/registration_parameters.py:9 | lower leaves no upper-case letter, changes only upper-case letters, and keeps whitespace as whitespace |
| Presets.NormalizeIgnoresCase | ardent/presets/registration_parameters.py:9-12 | names equal up to case select the same preset |
| Presets.NormalizeIgnoresPadding | ardent/presets/registration_parameters.py:9-12 | names equal up to surrounding whitespace select the same preset |
| Presets.NormalizeKeepsTrimmedLowerCase | ardent/presets/registration_parameters.py:9 | a lower-case name without surrounding whitespace is its own key, inner spaces included (as in 'clarity, mouse') |
| Presets.NormalizeIdempotent | ardent/presets/registration_parameters.py:9 | normalising twice is normalising once |
| Presets.LookupNormalized | ardent/presets/registration_parameters.py:6-15 | looking up the normalised name has the same outcome as looking up the raw name |
| Presets.PresetRegistry.constructor | ardent/presets/registration_parameters.py:1 | the table starts empty |
| Presets.PresetRegistry.Update | ardent/presets/registration_parameters.py:4 | `dict.update`: the new entries are added, and each replaces any entry with the same name |
| Transform.CollectParameters | ardent/transform.py:91-92 | each of sigmaR, eV, eL, eT and each keyword argument is kept, with its value, exactly when it is not None. Nothing else appears, and no None is left |
| Transform.Merge | ardent/transform.py:51 | `dict.update`: the keys are those of both; an override wins, and every other key keeps its default |
| Transform.HandleRegistrationParameters | ardent/transform.py:35-53 | with a known preset, the result holds the preset's keys and the caller's, the caller's values win, and the preset supplies the rest. An unknown preset gives the lookup's NotImplementedError. The preset table is not changed (the corrected behaviour, see Findings) |
| Transform.HandleRegistrationParametersInPlace | ardent/transform.py:47-53 | as written: returns the same dictionary as the corrected version, but leaves the caller's parameters written into the stored preset entry |
| Transform.InPlaceTable | ardent/transform.py:48-51 | the preset table after line 51 as written: the same names, with the entry of the normalised preset replaced by its merge with the caller's parameters, and every other entry unchanged |
| Transform.InPlaceMergeLeaksIntoLaterCalls | ardent/transform.py:48-51 | after a call with preset 'clarity' and sigmaR=5.0, a later call with the same preset and no parameters gets sigmaR=5.0 instead of 1.0, for a table whose 'clarity' entry has sigmaR=1.0 (the entry's values in the source are left empty) |
| Transform.RegistrationParameters | ardent/transform.py:90-95 | without a preset, exactly the collected parameters. With a preset: success exactly when the preset is known, explicit values always win, the preset fills in every other key, and no key comes from anywhere else. sigmaR is present exactly when the caller or the preset gives it |
| Transform.FirstMissing | ardent/transform.py:114-120 | the index of the first solver output that `register` reads and cannot find; all earlier outputs are present |
| Transform.FirstMissingAt | ardent/transform.py:114-120 | after an unbroken run of present outputs, the first absent one is the first missing |
| Transform.PopulateError | ardent/transform.py:114-120 | no error exactly when all six outputs are present. Otherwise the KeyError names the first output key, in the order of lines 114-120, that the solver did not return |
| Transform.RegisterOverwritesResults | ardent/transform.py:113-120 | with a complete output, the six result attributes become the six outputs (`affine` from 'A'); the attribute names are the same, and all other attributes keep their values |
| Transform.LoadedResultAttribute | ardent/transform.py:170 | after a load, each result attribute has the loaded value if there is one, and otherwise keeps its old value |
| Transform.LoadedOtherAttribute | ardent/transform.py:170 | after a load, every other attribute exists and has its value as `dict.update` says |
| Transform.LoadIsDictUpdate | ardent/transform.py:170 | splitting the loaded dictionary between the six result fields and the other attributes is exactly `__dict__.update` |
| Transform.Transform.constructor | ardent/transform.py:20-32 | a new Transform has the six result attributes, all None, and no other attribute |
| Transform.Transform.Register | ardent/transform.py:57-120 | an unknown preset, or a missing sigmaR (KeyError), leaves every attribute unchanged. Otherwise the solver is called with the merged parameters, their sigmaR and the previous solver state. The result attributes are set from its output in source order, up to the first output that is missing, which is reported as a KeyError. The other attributes do not change. This is the corrected register: the preset table does not change. As written, line 51 writes the caller's parameters into the stored preset entry (see Findings) |
| Transform.Transform.Populate | ardent/transform.py:113-120 | the six assignments in order; a missing key stops them with a KeyError, and later attributes keep their values |
| Transform.Transform.Load | ardent/transform.py:159-170 | the attribute dictionary afterwards is the old one updated with the loaded one. The result attributes take the loaded values where present; every other loaded attribute is added or replaced |

## Left out

- The LDDMM solver (`Transformer` and `torch_register`) is a function parameter of `Register`, from its inputs to its output dictionary. Its exceptions and its own numerics are not modelled.
- `apply_transform` is not modelled: it passes `self.transformer` to the solver library and writes the result to a file.
- `save` is not modelled: it pickles the whole object to a file, which is I/O.
- `load` receives the loaded object's attribute dictionary; reading and unpickling the file is I/O.
- `ardent/preprocessing/normalization.py` is not part of this model.
- The cast `np.array(value, dtype)` and whether it falls back to the object dtype are NumPy's behaviour. The validators take their outcome as an argument (`Cast`) instead of computing it. dtype inference is not modelled.
- `np.isnan` is an abstract predicate on elements. The TypeError it raises on non-numeric dtypes is not modelled.
- Utilities.SizeToInt: the OverflowError of `int(float('inf'))` and the ValueError of `int(nan)` are not modelled; a float argument is a finite real.
- NdArrays.BroadcastTo: shapes are natural numbers, so the errors NumPy raises for negative entries in the shape are not modelled.
- Utilities.ValidateNdarrayIdempotent: requires any broadcast shape to have required_ndim axes. Otherwise the second call fails the required_ndim check, and the source's result is not idempotent.
- Presets.Lower: lower-cases ASCII letters only. Python's `str.lower` also maps non-ASCII letters.
- Presets.GetRegistrationPresets: the error carries the known preset names as a set, not as the list in dictionary order that the message prints.
- The contents of the preset table are a parameter. Line 4 of `registration_parameters.py` leaves the values of the 'clarity' entry empty (it is not valid Python), so there are no values to model.
- The `Transformer` constructor's own checks on its arguments belong to the solver library and are not modelled.
- Parameters are modelled as None, a real number, a string, or an opaque object; NumPy arrays passed as parameters are opaque objects.

## Findings

| source | as written | input that shows it | evidently intended | confidence | as-written member | corrected member |
|---|---|---|---|---|---|---|
| ardent/transform.py:48-53 | `_handle_registration_parameters` calls `update` on the dictionary returned by the preset lookup. That dictionary is the entry stored in the module-level preset table, so the caller's parameters are written into the table. | `register(..., preset='clarity', sigmaR=5.0)` followed by `register(..., preset='clarity')`: the second call runs with sigmaR=5.0 instead of the preset's value | the preset's parameters are copied before the caller's are merged in, and the table is never changed | high; not executed | Transform.HandleRegistrationParametersInPlace, Transform.InPlaceMergeLeaksIntoLaterCalls | Transform.HandleRegistrationParameters, Transform.Transform.Register |
