/** Outcomes of the validators and of registration: either a value or the
    Python exception the source raises, tagged with the raise site's reason. */
module Outcomes {

  datatype Option<+T> = None | Some(value: T)

  /** The Python exception classes the modelled code raises or lets through. */
  datatype ExceptionClass = TypeError | ValueError | NotImplementedError | KeyError | OtherException

  /** One constructor per raise site (or per exception escaping from a library call). */
  datatype Error =
    // _validate_scalar_to_multi
    | SizeNotInteger
    | NegativeSize(size: int)
    | ValueDtypeIncompatible
    | LengthMismatch(length: nat)
    | TooManyDimensions(ndim: nat)
    | NanEncountered
    // _validate_ndarray
    | MinimumNdimNotInt
    | NegativeMinimumNdim(minimumNdim: int)
    | RequiredNdimNotInt
    | NegativeRequiredNdim(requiredNdim: int)
    | DtypeNotAType
    | ArrayTypeIncompatible
    | ArrayValueIncompatible
    | ObjectDtypeForbidden
    | NdimMismatch(ndim: nat, required: nat)
    | BelowMinimumNdim(ndim: nat, minimum: nat)
    | NotBroadcastable(from: seq<nat>, to: seq<nat>)
    // an exception raised by the array cast that the caller does not catch
    | Uncaught(raised: ExceptionClass)
    // get_registration_presets
    | UnknownPreset(name: string, known: set<string>)
    // a dictionary subscript on a missing key
    | MissingKey(key: string)
  {
    /** The Python class of the exception this error stands for. */
    function Class(): ExceptionClass
    {
      match this
      case SizeNotInteger | MinimumNdimNotInt | RequiredNdimNotInt | DtypeNotAType
        | ArrayTypeIncompatible | ObjectDtypeForbidden => TypeError
      case NegativeSize(_) | ValueDtypeIncompatible | LengthMismatch(_) | TooManyDimensions(_)
        | NegativeMinimumNdim(_) | NegativeRequiredNdim(_) | ArrayValueIncompatible
        | NdimMismatch(_, _) | BelowMinimumNdim(_, _) | NotBroadcastable(_, _) => ValueError
      case NanEncountered | UnknownPreset(_, _) => NotImplementedError
      case MissingKey(_) => KeyError
      case Uncaught(c) => c
    }
  }

  datatype Result<+T> = Ok(value: T) | Err(error: Error)
}
