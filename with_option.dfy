/**
 * Runtime mappers for `Option`. The conversion of the contained value is a function
 * parameter, so each member stands for its plain and its `_extra` variant and for
 * the matching `ExtraInto` / `TryExtraInto` impl.
 */
module WithOption {
  import opened Wrappers

  /** The text of the error `try_remove_option` raises for a missing value. */
  const RequiredMessage := "The value was required but not present"

  /** `anyhow::Error`: either a message of its own or a wrapped source error. */
  datatype AnyError<E> = Message(text: string) | Source(error: E)

  /** `option`, `option_extra`, `ExtraInto for Option`: `from.map(conv)`. */
  function OptionMap<F, I>(from: Option<F>, conv: F -> I): (r: Option<I>)
    ensures r.Some? <==> from.Some?
    ensures r.Some? ==> r.value == conv(from.value)
  {
    match from
    case None => None
    case Some(x) => Some(conv(x))
  }

  /** `add_option`, `add_option_extra`: always `Some` of the converted value. */
  function AddOption<F, I>(from: F, conv: F -> I): (r: Option<I>)
    ensures r.Some? && r.value == conv(from)
  {
    Some(conv(from))
  }

  /** `Option::transpose`: `Some(Ok(y))` becomes `Ok(Some(y))`, `Some(Err(e))` becomes `Err(e)`. */
  function Transpose<I, E>(o: Option<Result<I, E>>): (r: Result<Option<I>, E>)
    ensures o.None? ==> r == Ok(None)
    ensures o.Some? && o.value.Ok? ==> r == Ok(Some(o.value.value))
    ensures o.Some? && o.value.Err? ==> r == Err(o.value.error)
  {
    match o
    case None => Ok(None)
    case Some(Ok(y)) => Ok(Some(y))
    case Some(Err(e)) => Err(e)
  }

  /** `try_option`, `try_option_extra`, `TryExtraInto for Option`: `from.map(conv).transpose()`. */
  function TryOption<F, I, E>(from: Option<F>, conv: F -> Result<I, E>): (r: Result<Option<I>, E>)
    ensures from.None? ==> r == Ok(None)
    ensures from.Some? ==> (r.Ok? <==> conv(from.value).Ok?)
    ensures from.Some? && r.Ok? ==> r.value == Some(conv(from.value).value)
    ensures from.Some? && r.Err? ==> r.error == conv(from.value).error
  {
    Transpose(OptionMap(from, conv))
  }

  /** `try_add_option`, `try_add_option_extra`: `Ok(Some(from.try_into()?))`. */
  function TryAddOption<F, I, E>(from: F, conv: F -> Result<I, E>): (r: Result<Option<I>, E>)
    ensures r.Ok? <==> conv(from).Ok?
    ensures r.Ok? ==> r.value == Some(conv(from).value)
    ensures r.Err? ==> r.error == conv(from).error
  {
    match conv(from)
    case Ok(y) => Ok(Some(y))
    case Err(e) => Err(e)
  }

  /**
   * `try_remove_option`, `try_remove_option_extra`: a missing value is an error with
   * `RequiredMessage`; a present one is converted, its error wrapped by `?`.
   */
  function TryRemoveOption<F, I, E>(from: Option<F>, conv: F -> Result<I, E>): (r: Result<I, AnyError<E>>)
    ensures from.None? ==> r == Err(Message(RequiredMessage))
    ensures from.Some? && conv(from.value).Ok? ==> r == Ok(conv(from.value).value)
    ensures from.Some? && conv(from.value).Err? ==> r == Err(Source(conv(from.value).error))
  {
    match from
    case None => Err(Message(RequiredMessage))
    case Some(f) =>
      match conv(f)
      case Ok(y) => Ok(y)
      case Err(e) => Err(Source(e))
  }

  /** Wrapping into `Some` is mapping over a value that is present. */
  lemma AddOptionIsMapOfSome<F, I, E>(x: F, conv: F -> I, tryConv: F -> Result<I, E>)
    ensures AddOption(x, conv) == OptionMap(Some(x), conv)
    ensures TryAddOption(x, tryConv) == TryOption(Some(x), tryConv)
  {
  }

  /** When no conversion can fail, the fallible mappers agree with the infallible ones. */
  lemma TryOptionOfTotal<F, I, E>(from: Option<F>, conv: F -> I, tryConv: F -> Result<I, E>)
    requires forall x :: tryConv(x) == Ok(conv(x))
    ensures TryOption(from, tryConv) == Ok(OptionMap(from, conv))
    ensures from.Some? ==> TryRemoveOption(from, tryConv) == Ok(conv(from.value))
  {
  }

  /**
   * Removing the option undoes adding it: whatever `try_option` would have put into
   * `Some`, `try_remove_option` hands back bare, and it fails exactly when `try_option`
   * fails or when there is no value.
   */
  lemma RemoveUndoesAdd<F, I, E>(from: Option<F>, conv: F -> Result<I, E>)
    ensures TryOption(from, conv) == Ok(None) <==> TryRemoveOption(from, conv) == Err(Message(RequiredMessage))
    ensures forall y :: TryOption(from, conv) == Ok(Some(y)) <==> TryRemoveOption(from, conv) == Ok(y)
  {
  }
}
