/** The Result-like enum generated by `alias_result!(Type, Ok, Err)`.
    The model fixes the user-chosen names as `ResultLike`, `OkV` and `ErrV`, and
    names every generated method after the macro parameter it is derived
    from (`is_<ok>` becomes `IsOk`, `as_<err>` becomes `AsErr`, ...). */
module ResultAlias {
  import opened Canonical

  /** `$type_name<T, E>` with a success variant `$ok_variant(T)` and a
      failure variant `$err_variant(E)`. */
  datatype ResultLike<T, E> = OkV(value: T) | ErrV(error: E)

  // ---------------------------------------------------------------------
  // Predicates

  /** `is_<ok>`: the value is not a failure. */
  function IsOk<T, E>(x: ResultLike<T, E>): (b: bool)
    ensures b <==> !x.ErrV?
  {
    x.OkV?
  }

  /** `is_<err>`: exactly the values that `is_<ok>` rejects. */
  function IsErr<T, E>(x: ResultLike<T, E>): (b: bool)
    ensures b != IsOk(x)
  {
    x.ErrV?
  }

  // ---------------------------------------------------------------------
  // Accessors

  /** `as_<ok>`: a view of the success payload exactly when tagged ok. */
  function AsOk<T, E>(x: ResultLike<T, E>): (r: Option<T>)
    ensures r.Some? <==> IsOk(x)
    ensures r.Some? ==> x == OkV(r.value)
  {
    match x
    case OkV(v) => Some(v)
    case _ => None
  }

  /** `as_<err>`: a view of the failure payload exactly when tagged err. */
  function AsErr<T, E>(x: ResultLike<T, E>): (r: Option<E>)
    ensures r.Some? <==> IsErr(x)
    ensures r.Some? ==> x == ErrV(r.value)
  {
    match x
    case ErrV(e) => Some(e)
    case _ => None
  }

  /** `as_<ok>_mut`, modelled by its effect: a borrow is handed out only on
      the ok variant, and the caller may replace the payload by
      `write(payload)`. `None` when no borrow is handed out, otherwise the
      value after the write. */
  function AsOkMut<T, E>(x: ResultLike<T, E>, write: T -> T): (r: Option<ResultLike<T, E>>)
    ensures r.Some? <==> IsOk(x)
    ensures r.Some? ==> AsOk(r.value) == Some(write(AsOk(x).value))
  {
    match x
    case OkV(v) => Some(OkV(write(v)))
    case _ => None
  }

  /** `as_<err>_mut`, the mirror image of `as_<ok>_mut`. */
  function AsErrMut<T, E>(x: ResultLike<T, E>, write: E -> E): (r: Option<ResultLike<T, E>>)
    ensures r.Some? <==> IsErr(x)
    ensures r.Some? ==> AsErr(r.value) == Some(write(AsErr(x).value))
  {
    match x
    case ErrV(e) => Some(ErrV(write(e)))
    case _ => None
  }

  // ---------------------------------------------------------------------
  // Transformations

  /** `map(f)`: rewrites a success payload and leaves a failure as it is. */
  function Map<T, U, E>(x: ResultLike<T, E>, f: T -> U): (r: ResultLike<U, E>)
    ensures IsOk(r) <==> IsOk(x)
    ensures AsErr(r) == AsErr(x)
    ensures IsOk(x) ==> AsOk(r) == Some(f(AsOk(x).value))
  {
    match x
    case OkV(v) => OkV(f(v))
    case ErrV(e) => ErrV(e)
  }

  /** `map_err(op)`: rewrites a failure payload and leaves a success as it
      is. */
  function MapErr<T, E, F>(x: ResultLike<T, E>, op: E -> F): (r: ResultLike<T, F>)
    ensures IsErr(r) <==> IsErr(x)
    ensures AsOk(r) == AsOk(x)
    ensures IsErr(x) ==> AsErr(r) == Some(op(AsErr(x).value))
  {
    match x
    case OkV(v) => OkV(v)
    case ErrV(e) => ErrV(op(e))
  }

  // ---------------------------------------------------------------------
  // Extraction

  /** `unwrap`: panics on the err variant, so the caller must hold the ok
      variant; returns the success payload. */
  function Unwrap<T, E>(x: ResultLike<T, E>): (r: T)
    requires IsOk(x)
    ensures x == OkV(r)
    ensures AsOk(x) == Some(r)
  {
    match x
    case OkV(v) => v
  }

  /** `unwrap_or(default)`: the success payload, or `default` on a failure. */
  function UnwrapOr<T, E>(x: ResultLike<T, E>, default: T): (r: T)
    ensures IsOk(x) ==> r == Unwrap(x)
    ensures IsErr(x) ==> r == default
  {
    match x
    case OkV(v) => v
    case ErrV(_) => default
  }

  /** `unwrap_or_else(op)`: the success payload, or `op` applied to the
      failure payload. */
  function UnwrapOrElse<T, E>(x: ResultLike<T, E>, op: E -> T): (r: T)
    ensures IsOk(x) ==> r == Unwrap(x)
    ensures IsErr(x) ==> r == op(AsErr(x).value)
  {
    match x
    case OkV(v) => v
    case ErrV(e) => op(e)
  }

  // ---------------------------------------------------------------------
  // Conversions

  /** `From<Result<T, E>> for $type_name<T, E>`. */
  function FromResult<T, E>(res: Result<T, E>): (r: ResultLike<T, E>)
    ensures IsOk(r) <==> res.Ok?
    ensures res.Ok? ==> AsOk(r) == Some(res.value)
    ensures res.Err? ==> AsErr(r) == Some(res.error)
  {
    match res
    case Ok(v) => OkV(v)
    case Err(e) => ErrV(e)
  }

  /** `From<$type_name<T, E>> for Result<T, E>`. */
  function ToResult<T, E>(x: ResultLike<T, E>): (r: Result<T, E>)
    ensures r.Ok? <==> IsOk(x)
    ensures r.Ok? ==> AsOk(x) == Some(r.value)
    ensures r.Err? ==> AsErr(x) == Some(r.error)
  {
    match x
    case OkV(v) => Ok(v)
    case ErrV(e) => Err(e)
  }

  // ---------------------------------------------------------------------
  // Properties relating several members

  /** Exactly one of `is_<ok>` and `is_<err>` holds. */
  lemma TagExclusive<T, E>(x: ResultLike<T, E>)
    ensures IsOk(x) != IsErr(x)
  {
  }

  /** Exactly one of the two accessors returns a view. */
  lemma AccessorsExclusive<T, E>(x: ResultLike<T, E>)
    ensures AsOk(x).Some? != AsErr(x).Some?
  {
  }

  /** `map` and `map_err` with the identity function change nothing. */
  lemma MapIdentity<T, E>(x: ResultLike<T, E>)
    ensures Map(x, v => v) == x
    ensures MapErr(x, e => e) == x
  {
  }

  /** A borrow through which nothing is written leaves the value as it
      was. */
  lemma AsMutIdentity<T, E>(x: ResultLike<T, E>)
    ensures AsOkMut(x, v => v) == if IsOk(x) then Some(x) else None
    ensures AsErrMut(x, e => e) == if IsErr(x) then Some(x) else None
  {
  }

  /** `map` and `map_err` act on different payloads, so their order does
      not matter. */
  lemma MapMapErrCommute<T, U, E, F>(x: ResultLike<T, E>, f: T -> U, op: E -> F)
    ensures MapErr(Map(x, f), op) == Map(MapErr(x, op), f)
  {
  }

  /** `unwrap_or(d)` is `unwrap_or_else` with a function that ignores the
      failure payload and returns `d`. */
  lemma UnwrapOrIsUnwrapOrElse<T, E>(x: ResultLike<T, E>, d: T)
    ensures UnwrapOr(x, d) == UnwrapOrElse(x, _ => d)
  {
  }

  /** Result -> alias -> Result is the identity. */
  lemma FromThenToResult<T, E>(res: Result<T, E>)
    ensures ToResult(FromResult(res)) == res
  {
  }

  /** Alias -> Result -> alias is the identity. */
  lemma ToThenFromResult<T, E>(x: ResultLike<T, E>)
    ensures FromResult(ToResult(x)) == x
  {
  }

  /** Every alias value is the image of some `Result`: with the two round
      trips, the conversions are mutually inverse bijections. */
  lemma FromResultOnto<T, E>(x: ResultLike<T, E>)
    ensures exists res :: FromResult(res) == x
  {
    ToThenFromResult(x);
  }

  /** Every `Result` is the image of some alias value. */
  lemma ToResultOnto<T, E>(res: Result<T, E>)
    ensures exists x :: ToResult(x) == res
  {
    FromThenToResult(res);
  }

  /** The usage examples: a success of 42 and of 10, doubling by `map`,
      and the conversions from `Ok(42)` and `Err(..)`. */
  lemma DocExamples()
    ensures IsOk(ResultLike<int, string>.OkV(42)) && IsErr(ResultLike<int, string>.ErrV("failed"))
    ensures AsOk(ResultLike<int, string>.OkV(10)) == Some(10) && AsErr(ResultLike<int, string>.OkV(10)) == None
    ensures Unwrap(Map(ResultLike<int, string>.OkV(10), (x: int) => x * 2)) == 20
    ensures FromResult(Result<int, string>.Ok(42)) == OkV(42)
    ensures IsErr(FromResult(Result<int, string>.Err("failed")))
    ensures ToResult(ResultLike<int, string>.OkV(42)) == Ok(42)
    ensures UnwrapOr(ResultLike<int, string>.OkV(5), 0) == 5 && UnwrapOr(ResultLike<int, string>.ErrV("failed"), 0) == 0
  {
  }
}
