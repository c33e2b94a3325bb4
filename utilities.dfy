/** The argument validators of ardent/utilities.py: upcasting a scalar to a
    vector of a given length, and checking an array's dimensionality with an
    optional upcast and broadcast. */
module Utilities {
  import opened Outcomes
  import opened NdArrays

  /** What `size` may be when `int(size)` is applied to it: an integer (or a
      string or object int() reads as one), a finite float, or something
      int() rejects. */
  datatype SizeArg = IntegerLike(n: int) | FloatLike(x: real) | NotIntegerLike

  /** An argument checked with `isinstance(_, int)`. */
  datatype IntArg = Int(value: int) | NotInt

  /** A `dtype` argument: a Python type (possibly `object`) or something else. */
  datatype DtypeArg = IsType(isObject: bool) | NotAType

  /** The outcome of `np.array(value, dtype)`, which is NumPy's behaviour and
      is given to the validators rather than computed: the array with whether
      NumPy fell back to the object dtype, or the exception NumPy raised. */
  datatype Cast<E> = Converted(arr: Array<E>, objectDtype: bool) | CastFailed(raised: ExceptionClass)

  /** Python's int() on a float: truncation toward zero. */
  function Truncate(x: real): (n: int)
    ensures x >= 0.0 ==> n as real <= x < n as real + 1.0
    ensures x < 0.0 ==> n as real - 1.0 < x <= n as real
  {
    if x >= 0.0 then x.Floor else -((-x).Floor)
  }

  /** `size = int(size)`, with the TypeError the source raises when it fails. */
  function SizeToInt(size: SizeArg): (r: Result<int>)
    ensures r.Err? <==> size.NotIntegerLike?
    ensures r.Err? ==> r.error == SizeNotInteger
    ensures size.IntegerLike? ==> r == Ok(size.n)
    ensures size.FloatLike? ==> r == Ok(Truncate(size.x))
  {
    match size
    case IntegerLike(n) => Ok(n)
    case FloatLike(x) => Ok(Truncate(x))
    case NotIntegerLike => Err(SizeNotInteger)
  }

  /** A 0-d array becomes the one-element vector `np.array([value])`. */
  function UpcastScalar<E>(a: Array<E>): (v: Array<E>)
    ensures a.Ndim() == 0 ==> v.shape == [1] && v.data == a.data
    ensures a.Ndim() != 0 ==> v == a
  {
    if a.Ndim() == 0 then
      ProductOfVector(1);
      NdArray([1], a.data)
    else a
  }

  /** The shapes _validate_scalar_to_multi accepts for a given size: a
      scalar, a vector of length 1, or a vector of length `size`. */
  predicate ShapeAccepted<E>(a: Array<E>, size: int)
  {
    a.Ndim() == 0 || (a.Ndim() == 1 && (a.shape[0] == 1 || a.shape[0] == size))
  }

  predicate AnyNaN<E>(s: seq<E>, isNaN: E -> bool)
  {
    exists i | 0 <= i < |s| :: isNaN(s[i])
  }

  /** _validate_scalar_to_multi: turn a scalar or length-1 value into a vector
      of length `size`, accept a vector already of length `size`, reject
      every other shape. `isNaN` stands for np.isnan on the element type. */
  function ValidateScalarToMulti<E>(value: Cast<E>, size: SizeArg, isNaN: E -> bool): (r: Result<Array<E>>)
    // size is checked before the value is looked at
    ensures size.NotIntegerLike? ==> r == Err(SizeNotInteger)
    ensures SizeToInt(size).Ok? && SizeToInt(size).value < 0 ==> r == Err(NegativeSize(SizeToInt(size).value))
    ensures SizeToInt(size).Ok? && SizeToInt(size).value >= 0 && value.CastFailed? ==>
      r == Err(if value.raised == ValueError then ValueDtypeIncompatible else Uncaught(value.raised))
    // shape errors
    ensures SizeToInt(size).Ok? && SizeToInt(size).value >= 0 && value.Converted? && value.arr.Ndim() > 1 ==>
      r == Err(TooManyDimensions(value.arr.Ndim()))
    ensures SizeToInt(size).Ok? && SizeToInt(size).value >= 0 && value.Converted? && value.arr.Ndim() == 1
            && value.arr.shape[0] != 1 && value.arr.shape[0] != SizeToInt(size).value ==>
      r == Err(LengthMismatch(value.arr.shape[0]))
    // on success: a 1-d vector of length exactly `size`, free of NaN
    ensures r.Ok? ==> SizeToInt(size).Ok? && r.value.shape == [SizeToInt(size).value]
    ensures r.Ok? ==> value.Converted? && !AnyNaN(r.value.data, isNaN)
    // a single value is repeated, a vector of the right length is kept as it is
    ensures r.Ok? && |value.arr.data| == 1 ==> forall i :: 0 <= i < |r.value.data| ==> r.value.data[i] == value.arr.data[0]
    ensures r.Ok? && value.arr.Ndim() == 1 && value.arr.shape[0] == SizeToInt(size).value ==> r.value == value.arr
    // the NaN check only rejects NaN that reach the result
    ensures r.Err? && r.error == NanEncountered ==> value.Converted? && AnyNaN(value.arr.data, isNaN)
    // an accepted shape succeeds unless a NaN ends up in the result
    ensures SizeToInt(size).Ok? && SizeToInt(size).value >= 0 && value.Converted?
            && ShapeAccepted(value.arr, SizeToInt(size).value) && !AnyNaN(value.arr.data, isNaN)
            ==> r.Ok?
    ensures SizeToInt(size).Ok? && SizeToInt(size).value > 0 && value.Converted?
            && ShapeAccepted(value.arr, SizeToInt(size).value) && AnyNaN(value.arr.data, isNaN)
            ==> r == Err(NanEncountered)
    // with size 0 nothing of the value reaches the result, so even a NaN passes
    ensures SizeToInt(size).Ok? && SizeToInt(size).value == 0 && value.Converted?
            && ShapeAccepted(value.arr, 0)
            ==> r.Ok? && r.value.data == []
  {
    match SizeToInt(size)
    case Err(e) => Err(e)
    case Ok(n) =>
      if n < 0 then Err(NegativeSize(n))
      else
        match value
        case CastFailed(c) => Err(if c == ValueError then ValueDtypeIncompatible else Uncaught(c))
        case Converted(a, _) =>
          var v := UpcastScalar(a);
          if v.Ndim() != 1 then Err(TooManyDimensions(v.Ndim()))
          else if v.shape[0] != 1 && v.shape[0] != n then Err(LengthMismatch(v.shape[0]))
          else
            ProductOfVector(v.shape[0]);
            var w := if v.shape[0] == 1 then Full(n, v.data[0]) else v;
            assert n > 0 && v.shape[0] == 1 && isNaN(v.data[0]) ==> isNaN(w.data[0]);
            if AnyNaN(w.data, isNaN) then Err(NanEncountered) else Ok(w)
  }

  /** The validator accepts its own output unchanged: once a value has been
      validated for a size, validating it again (it is already a float array)
      returns it as it is. */
  lemma ScalarToMultiIdempotent<E>(value: Cast<E>, n: nat, isNaN: E -> bool)
    requires ValidateScalarToMulti(value, IntegerLike(n), isNaN).Ok?
    ensures var out := ValidateScalarToMulti(value, IntegerLike(n), isNaN).value;
            ValidateScalarToMulti(Converted(out, false), IntegerLike(n), isNaN) == Ok(out)
  {
    var out := ValidateScalarToMulti(value, IntegerLike(n), isNaN).value;
    if n == 1 {
      ProductOfVector(1);
      assert out.data == [out.data[0]];
      assert Full(1, out.data[0]).data == out.data;
    }
  }

  /** The arguments of _validate_ndarray that are checked before the array is cast. */
  function CheckArguments(minimumNdim: IntArg, requiredNdim: Option<IntArg>, dtype: Option<DtypeArg>): (e: Option<Error>)
    ensures e.None? <==> minimumNdim.Int? && minimumNdim.value >= 0
                         && (requiredNdim.Some? ==> requiredNdim.value.Int? && requiredNdim.value.value >= 0)
                         && (dtype.Some? ==> dtype.value.IsType?)
    ensures e.Some? ==> e.value.Class() == TypeError || e.value.Class() == ValueError
    // minimum_ndim is checked first, and a dtype that is not a type is reported last
    ensures minimumNdim.NotInt? ==> e == Some(MinimumNdimNotInt)
    ensures e == Some(DtypeNotAType) <==> minimumNdim.Int? && minimumNdim.value >= 0
                                          && (requiredNdim.Some? ==> requiredNdim.value.Int? && requiredNdim.value.value >= 0)
                                          && dtype.Some? && dtype.value.NotAType?
  {
    if minimumNdim.NotInt? then Some(MinimumNdimNotInt)
    else if minimumNdim.value < 0 then Some(NegativeMinimumNdim(minimumNdim.value))
    else if requiredNdim.Some? && requiredNdim.value.NotInt? then Some(RequiredNdimNotInt)
    else if requiredNdim.Some? && requiredNdim.value.value < 0 then Some(NegativeRequiredNdim(requiredNdim.value.value))
    else if dtype.Some? && dtype.value.NotAType? then Some(DtypeNotAType)
    else None
  }

  /** The array after the required_ndim step: a 0-d array upcast to 1-d when
      the dimensions differ (the only difference the step lets through). */
  function AfterRequired<E>(a: Array<E>, requiredNdim: Option<IntArg>): Array<E>
    requires requiredNdim.Some? ==> requiredNdim.value.Int?
  {
    if requiredNdim.Some? && a.Ndim() != requiredNdim.value.value then UpcastScalar(a) else a
  }

  /** The arguments are valid, the cast succeeded, and neither the object
      dtype check nor the required_ndim check raised. */
  predicate Admitted<E>(cast: Cast<E>, minimumNdim: IntArg, requiredNdim: Option<IntArg>,
                        dtype: Option<DtypeArg>, forbidObjectDtype: bool)
  {
    CheckArguments(minimumNdim, requiredNdim, dtype).None? && cast.Converted?
    && !(forbidObjectDtype && cast.objectDtype && !(dtype.Some? && dtype.value.isObject))
    && !(requiredNdim.Some? && cast.arr.Ndim() != requiredNdim.value.value
         && !(cast.arr.Ndim() == 0 && requiredNdim.value.value == 1))
  }

  /** _validate_ndarray: cast, reject an unwanted object dtype, enforce
      `required_ndim` (upcasting a 0-d array when 1 is required), enforce
      `minimum_ndim`, then optionally broadcast to a shape as a new array. */
  function ValidateNdarray<E>(cast: Cast<E>, minimumNdim: IntArg, requiredNdim: Option<IntArg>,
                              dtype: Option<DtypeArg>, forbidObjectDtype: bool,
                              broadcastToShape: Option<seq<nat>>): (r: Result<Array<E>>)
    // the arguments are checked before the array is looked at
    ensures minimumNdim.Int? && minimumNdim.value < 0 ==> r == Err(NegativeMinimumNdim(minimumNdim.value))
    ensures (minimumNdim.Int? && minimumNdim.value >= 0 && requiredNdim.Some? && requiredNdim.value.Int?
             && requiredNdim.value.value < 0) ==> r == Err(NegativeRequiredNdim(requiredNdim.value.value))
    ensures r.Ok? ==> CheckArguments(minimumNdim, requiredNdim, dtype).None? && cast.Converted?
    // the object dtype is only let through when asked for
    ensures r.Ok? && forbidObjectDtype && cast.objectDtype ==> dtype.Some? && dtype.value.IsType? && dtype.value.isObject
    // required_ndim: met exactly (a later broadcast may add axes); the one
    // mismatch tolerated is 0-d against 1
    ensures r.Ok? && requiredNdim.Some? && broadcastToShape.None? ==> r.value.Ndim() == requiredNdim.value.value
    ensures r.Ok? && requiredNdim.Some? ==> r.value.Ndim() >= requiredNdim.value.value
    ensures r.Ok? && requiredNdim.Some? ==>
      cast.arr.Ndim() == requiredNdim.value.value || (cast.arr.Ndim() == 0 && requiredNdim.value.value == 1)
    ensures (CheckArguments(minimumNdim, requiredNdim, dtype).None? && cast.Converted?
             && !(forbidObjectDtype && cast.objectDtype && !(dtype.Some? && dtype.value.isObject))
             && requiredNdim.Some? && cast.arr.Ndim() != requiredNdim.value.value
             && !(cast.arr.Ndim() == 0 && requiredNdim.value.value == 1)) ==>
      r == Err(NdimMismatch(cast.arr.Ndim(), requiredNdim.value.value))
    // minimum_ndim is checked after the upcast
    ensures r.Ok? ==> r.value.Ndim() >= minimumNdim.value
    // without a broadcast the elements are those of the cast array; with one, the shape is the one asked for
    ensures r.Ok? && broadcastToShape.None? ==> r.value.data == cast.arr.data
    ensures r.Ok? && broadcastToShape.Some? ==> r.value.shape == broadcastToShape.value
    // every raise site, in source order
    ensures CheckArguments(minimumNdim, requiredNdim, dtype).Some?
            ==> r == Err(CheckArguments(minimumNdim, requiredNdim, dtype).value)
    ensures CheckArguments(minimumNdim, requiredNdim, dtype).None? && cast.CastFailed? && cast.raised == TypeError
            ==> r == Err(ArrayTypeIncompatible)
    ensures CheckArguments(minimumNdim, requiredNdim, dtype).None? && cast.CastFailed? && cast.raised == ValueError
            ==> r == Err(ArrayValueIncompatible)
    ensures CheckArguments(minimumNdim, requiredNdim, dtype).None? && cast.CastFailed?
            && cast.raised != TypeError && cast.raised != ValueError
            ==> r == Err(Uncaught(cast.raised))
    ensures CheckArguments(minimumNdim, requiredNdim, dtype).None? && cast.Converted?
            && forbidObjectDtype && cast.objectDtype && !(dtype.Some? && dtype.value.isObject)
            ==> r == Err(ObjectDtypeForbidden)
    ensures Admitted(cast, minimumNdim, requiredNdim, dtype, forbidObjectDtype)
            && AfterRequired(cast.arr, requiredNdim).Ndim() < minimumNdim.value
            ==> r == Err(BelowMinimumNdim(AfterRequired(cast.arr, requiredNdim).Ndim(), minimumNdim.value))
    // past every check: the (upcast) array, broadcast when a shape is given
    ensures Admitted(cast, minimumNdim, requiredNdim, dtype, forbidObjectDtype)
            && AfterRequired(cast.arr, requiredNdim).Ndim() >= minimumNdim.value && broadcastToShape.None?
            ==> r == Ok(AfterRequired(cast.arr, requiredNdim))
    ensures Admitted(cast, minimumNdim, requiredNdim, dtype, forbidObjectDtype)
            && AfterRequired(cast.arr, requiredNdim).Ndim() >= minimumNdim.value && broadcastToShape.Some?
            ==> (r.Ok? <==> Broadcastable(AfterRequired(cast.arr, requiredNdim).shape, broadcastToShape.value))
                && (r.Err? ==> r.error == NotBroadcastable(AfterRequired(cast.arr, requiredNdim).shape, broadcastToShape.value))
                && (r.Ok? ==> r == BroadcastTo(AfterRequired(cast.arr, requiredNdim), broadcastToShape.value))
  {
    match CheckArguments(minimumNdim, requiredNdim, dtype)
    case Some(e) => Err(e)
    case None =>
      match cast
      case CastFailed(c) =>
        Err(if c == TypeError then ArrayTypeIncompatible
            else if c == ValueError then ArrayValueIncompatible
            else Uncaught(c))
      case Converted(a, objectDtype) =>
        var objectRequested := dtype.Some? && dtype.value.isObject;
        if forbidObjectDtype && objectDtype && !objectRequested then Err(ObjectDtypeForbidden)
        else if requiredNdim.Some? && a.Ndim() != requiredNdim.value.value && !(a.Ndim() == 0 && requiredNdim.value.value == 1) then
          Err(NdimMismatch(a.Ndim(), requiredNdim.value.value))
        else
          var v := AfterRequired(a, requiredNdim);
          if v.Ndim() < minimumNdim.value then Err(BelowMinimumNdim(v.Ndim(), minimumNdim.value))
          else if broadcastToShape.Some? then BroadcastTo(v, broadcastToShape.value)
          else Ok(v)
  }

  /** Validating an already validated array with the same arguments (its dtype
      now fixed) returns it unchanged, a broadcast included, as long as the
      broadcast does not add axes beyond `required_ndim` (which would fail
      the second required_ndim check). */
  lemma ValidateNdarrayIdempotent<E>(cast: Cast<E>, minimumNdim: IntArg, requiredNdim: Option<IntArg>,
                                     dtype: Option<DtypeArg>, forbidObjectDtype: bool,
                                     broadcastToShape: Option<seq<nat>>)
    requires ValidateNdarray(cast, minimumNdim, requiredNdim, dtype, forbidObjectDtype, broadcastToShape).Ok?
    requires requiredNdim.Some? && broadcastToShape.Some? ==> |broadcastToShape.value| == requiredNdim.value.value
    ensures var out := ValidateNdarray(cast, minimumNdim, requiredNdim, dtype, forbidObjectDtype, broadcastToShape).value;
            ValidateNdarray(Converted(out, cast.objectDtype), minimumNdim, requiredNdim, dtype, forbidObjectDtype, broadcastToShape) == Ok(out)
  {
    var out := ValidateNdarray(cast, minimumNdim, requiredNdim, dtype, forbidObjectDtype, broadcastToShape).value;
    var again := Converted(out, cast.objectDtype);
    assert CheckArguments(minimumNdim, requiredNdim, dtype).None?;
    assert requiredNdim.Some? ==> out.Ndim() == requiredNdim.value.value;
    assert out.Ndim() >= minimumNdim.value;
    if broadcastToShape.Some? {
      BroadcastToOwnShape(out);
      assert out.shape == broadcastToShape.value;
    }
  }

  /** The broadcast is the last step: the call with a shape is the call
      without it, followed by the broadcast of its result; an error before
      the broadcast is the same error. */
  lemma ValidateNdarrayBroadcastsLast<E>(cast: Cast<E>, minimumNdim: IntArg, requiredNdim: Option<IntArg>,
                                         dtype: Option<DtypeArg>, forbidObjectDtype: bool, shape: seq<nat>)
    ensures ValidateNdarray(cast, minimumNdim, requiredNdim, dtype, forbidObjectDtype, Some(shape))
            == match ValidateNdarray(cast, minimumNdim, requiredNdim, dtype, forbidObjectDtype, None)
               case Ok(v) => BroadcastTo(v, shape)
               case Err(e) => Err(e)
  {
  }
}
