/** The Option-like enum generated by `alias_option!(Type, None, Some)`.
    The user picks the type name and the two variant names; the model
    fixes them as `OptionLike`, `NoneV` and `SomeV`, and names every generated
    method after the macro parameter it is derived from (`is_<some>`
    becomes `IsSome`, `is_<none>_or` becomes `IsNoneOr`, and so on). */
module OptionAlias {
  import opened Canonical

  /** `$type_name<T>` with an empty variant `$none_variant` and a payload
      variant `$some_variant(T)`. */
  datatype OptionLike<T> = NoneV | SomeV(payload: T)

  // ---------------------------------------------------------------------
  // Predicates

  /** `is_<some>`: the value is anything but the empty variant. */
  function IsSome<T>(x: OptionLike<T>): (b: bool)
    ensures b <==> x != NoneV
  {
    x.SomeV?
  }

  /** `is_<none>`: exactly the values that `is_<some>` rejects. */
  function IsNone<T>(x: OptionLike<T>): (b: bool)
    ensures b != IsSome(x)
  {
    x.NoneV?
  }

  // ---------------------------------------------------------------------
  // Accessors

  /** `as_<some>`: a view of the payload exactly when there is one. */
  function AsSome<T>(x: OptionLike<T>): (r: Option<T>)
    ensures r.Some? <==> IsSome(x)
    ensures r.Some? ==> x == SomeV(r.value)
  {
    match x
    case SomeV(v) => Some(v)
    case NoneV => None
  }

  /** `as_<some>_mut`. The mutable borrow is modelled by its effect: the
      caller obtains a borrow only on the payload variant and may replace
      the payload by `write(payload)`. The result is `None` when no borrow
      is handed out, and otherwise the value after the write. */
  function AsSomeMut<T>(x: OptionLike<T>, write: T -> T): (r: Option<OptionLike<T>>)
    ensures r.Some? <==> IsSome(x)
    ensures r.Some? ==> IsSome(r.value) && AsSome(r.value) == Some(write(AsSome(x).value))
  {
    match x
    case SomeV(v) => Some(SomeV(write(v)))
    case NoneV => None
  }

  // ---------------------------------------------------------------------
  // Conditional checks

  /** `is_<some>_and(f)`: tagged with a payload on which `f` holds. */
  function IsSomeAnd<T>(x: OptionLike<T>, f: T -> bool): (b: bool)
    ensures b ==> IsSome(x)
    ensures IsSome(x) ==> (b <==> f(AsSome(x).value))
  {
    match x
    case SomeV(v) => f(v)
    case _ => false
  }

  /** `is_<none>_or(f)`: empty, or tagged with a payload on which `f` holds.
      It is the dual of `is_<some>_and`. */
  function IsNoneOr<T>(x: OptionLike<T>, f: T -> bool): (b: bool)
    ensures IsNone(x) ==> b
    ensures b <==> !IsSomeAnd(x, v => !f(v))
  {
    match x
    case NoneV => true
    case SomeV(v) => f(v)
  }

  // ---------------------------------------------------------------------
  // Transformation and extraction

  /** `map(f)`: keeps the tag and applies `f` to the payload only. */
  function Map<T, U>(x: OptionLike<T>, f: T -> U): (r: OptionLike<U>)
    ensures IsSome(r) <==> IsSome(x)
    ensures IsSome(x) ==> AsSome(r) == Some(f(AsSome(x).value))
  {
    match x
    case SomeV(v) => SomeV(f(v))
    case NoneV => NoneV
  }

  /** `unwrap`: panics on the empty variant, so the caller must hold the
      payload variant; returns the payload. */
  function Unwrap<T>(x: OptionLike<T>): (r: T)
    requires IsSome(x)
    ensures x == SomeV(r)
    ensures AsSome(x) == Some(r)
  {
    match x
    case SomeV(v) => v
  }

  /** `unwrap_or(default)`: the payload if there is one, else `default`. */
  function UnwrapOr<T>(x: OptionLike<T>, default: T): (r: T)
    ensures IsSome(x) ==> r == Unwrap(x)
    ensures IsNone(x) ==> r == default
  {
    match x
    case SomeV(v) => v
    case NoneV => default
  }

  /** `unwrap_or_else(f)`: the payload if there is one, else `f()`. */
  function UnwrapOrElse<T>(x: OptionLike<T>, f: () -> T): (r: T)
    ensures IsSome(x) ==> r == Unwrap(x)
    ensures IsNone(x) ==> r == f()
  {
    match x
    case SomeV(v) => v
    case NoneV => f()
  }

  // ---------------------------------------------------------------------
  // Conversions

  /** `From<Option<T>> for $type_name<T>`. */
  function FromOption<T>(o: Option<T>): (r: OptionLike<T>)
    ensures IsSome(r) <==> o.Some?
    ensures o.Some? ==> Unwrap(r) == o.value
  {
    match o
    case Some(v) => SomeV(v)
    case None => NoneV
  }

  /** `From<$type_name<T>> for Option<T>`. */
  function ToOption<T>(x: OptionLike<T>): (r: Option<T>)
    ensures r.Some? <==> IsSome(x)
    ensures r.Some? ==> r.value == Unwrap(x)
  {
    match x
    case SomeV(v) => Some(v)
    case NoneV => None
  }

  // ---------------------------------------------------------------------
  // Properties relating several members

  /** Exactly one of `is_<none>` and `is_<some>` holds. */
  lemma TagExclusive<T>(x: OptionLike<T>)
    ensures IsNone(x) != IsSome(x)
  {
  }

  /** Mapping with the identity function changes nothing. */
  lemma MapIdentity<T>(x: OptionLike<T>)
    ensures Map(x, v => v) == x
  {
  }

  /** Two maps in a row are one map with the composed function. */
  lemma MapCompose<T, U, W>(x: OptionLike<T>, f: T -> U, g: U -> W)
    ensures Map(Map(x, f), g) == Map(x, v => g(f(v)))
  {
  }

  /** `unwrap_or(d)` is `unwrap_or_else` with a producer that returns `d`. */
  lemma UnwrapOrIsUnwrapOrElse<T>(x: OptionLike<T>, d: T)
    ensures UnwrapOr(x, d) == UnwrapOrElse(x, () => d)
  {
  }

  /** A borrow that writes nothing back leaves the value as it was. */
  lemma AsSomeMutIdentity<T>(x: OptionLike<T>)
    ensures AsSomeMut(x, v => v) == if IsSome(x) then Some(x) else None
  {
  }

  /** Option -> alias -> Option is the identity. */
  lemma FromThenToOption<T>(o: Option<T>)
    ensures ToOption(FromOption(o)) == o
  {
  }

  /** Alias -> Option -> alias is the identity. */
  lemma ToThenFromOption<T>(x: OptionLike<T>)
    ensures FromOption(ToOption(x)) == x
  {
  }

  /** Every alias value is the image of some `Option`: together with the
      two round trips, the conversions are mutually inverse bijections. */
  lemma FromOptionOnto<T>(x: OptionLike<T>)
    ensures exists o :: FromOption(o) == x
  {
    ToThenFromOption(x);
  }

  /** Every `Option` is the image of some alias value. */
  lemma ToOptionOnto<T>(o: Option<T>)
    ensures exists x :: ToOption(x) == o
  {
    FromThenToOption(o);
  }

  /** The conversion to `Option` commutes with `map`: the alias is a
      drop-in replacement for `Option` under mapping. */
  lemma MapCommutesWithToOption<T, U>(x: OptionLike<T>, f: T -> U)
    ensures ToOption(Map(x, f)) == (if x.SomeV? then Some(f(x.payload)) else None)
  {
  }

  /** The usage examples of the generated methods (receiver 10, doubled;
      unwrap_or on both variants; conversions; conditional checks). */
  lemma DocExamples()
    ensures IsSome(SomeV(10)) && AsSome(SomeV(10)) == Some(10)
    ensures Unwrap(Map(SomeV(10), (x: int) => x * 2)) == 20
    ensures UnwrapOr(SomeV(5), 0) == 5 && UnwrapOr(NoneV, 5) == 5
    ensures FromOption(Some(42)) == SomeV(42) && FromOption<int>(None) == NoneV
    ensures ToOption(SomeV(42)) == Some(42)
    ensures IsSomeAnd(SomeV(42), (x: int) => x > 40)
    ensures !IsSomeAnd(SomeV(42), (x: int) => x < 40)
    ensures !IsSomeAnd(NoneV, (x: int) => x > 40)
    ensures IsNoneOr(NoneV, (x: int) => x > 40)
    ensures IsNoneOr(SomeV(42), (x: int) => x > 40)
    ensures !IsNoneOr(SomeV(42), (x: int) => x < 40)
  {
  }
}
