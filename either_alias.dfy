/** The Either-like enum generated by `alias_either!(Type, Left, Right)`.
    The model fixes the user-chosen names as `EitherLike`, `LeftV` and `RightV`,
    and names every generated method after the macro parameter it is
    derived from (`map_<left>` becomes `MapLeft`, ...). The shape has no
    privileged side, no fallback extraction and no conversions. */
module EitherAlias {
  import opened Canonical

  /** `$type_name<L, R>` with two payload variants `$left_variant(L)` and
      `$right_variant(R)`. */
  datatype EitherLike<L, R> = LeftV(left: L) | RightV(right: R)

  // ---------------------------------------------------------------------
  // Predicates

  /** `is_<left>`: the value is not tagged right. */
  function IsLeft<L, R>(x: EitherLike<L, R>): (b: bool)
    ensures b <==> !x.RightV?
  {
    x.LeftV?
  }

  /** `is_<right>`: exactly the values that `is_<left>` rejects. */
  function IsRight<L, R>(x: EitherLike<L, R>): (b: bool)
    ensures b != IsLeft(x)
  {
    x.RightV?
  }

  // ---------------------------------------------------------------------
  // Accessors

  /** `as_<left>`: a view of the left payload exactly when tagged left. */
  function AsLeft<L, R>(x: EitherLike<L, R>): (r: Option<L>)
    ensures r.Some? <==> IsLeft(x)
    ensures r.Some? ==> x == LeftV(r.value)
  {
    match x
    case LeftV(v) => Some(v)
    case _ => None
  }

  /** `as_<right>`: a view of the right payload exactly when tagged right. */
  function AsRight<L, R>(x: EitherLike<L, R>): (r: Option<R>)
    ensures r.Some? <==> IsRight(x)
    ensures r.Some? ==> x == RightV(r.value)
  {
    match x
    case RightV(v) => Some(v)
    case _ => None
  }

  /** `as_<left>_mut`, modelled by its effect: a borrow is handed out only on
      the left variant, and the caller may replace the payload by
      `write(payload)`. `None` when no borrow is handed out, otherwise the
      value after the write. */
  function AsLeftMut<L, R>(x: EitherLike<L, R>, write: L -> L): (r: Option<EitherLike<L, R>>)
    ensures r.Some? <==> IsLeft(x)
    ensures r.Some? ==> AsLeft(r.value) == Some(write(AsLeft(x).value))
  {
    match x
    case LeftV(v) => Some(LeftV(write(v)))
    case _ => None
  }

  /** `as_<right>_mut`, the mirror image of `as_<left>_mut`. */
  function AsRightMut<L, R>(x: EitherLike<L, R>, write: R -> R): (r: Option<EitherLike<L, R>>)
    ensures r.Some? <==> IsRight(x)
    ensures r.Some? ==> AsRight(r.value) == Some(write(AsRight(x).value))
  {
    match x
    case RightV(v) => Some(RightV(write(v)))
    case _ => None
  }

  // ---------------------------------------------------------------------
  // Transformations

  /** `map_<left>(f)`: rewrites a left payload and leaves a right value as
      it is. */
  function MapLeft<L, T, R>(x: EitherLike<L, R>, f: L -> T): (r: EitherLike<T, R>)
    ensures IsLeft(r) <==> IsLeft(x)
    ensures AsRight(r) == AsRight(x)
    ensures IsLeft(x) ==> AsLeft(r) == Some(f(AsLeft(x).value))
  {
    match x
    case LeftV(v) => LeftV(f(v))
    case RightV(v) => RightV(v)
  }

  /** `map_<right>(f)`: rewrites a right payload and leaves a left value as
      it is. */
  function MapRight<L, R, T>(x: EitherLike<L, R>, f: R -> T): (r: EitherLike<L, T>)
    ensures IsRight(r) <==> IsRight(x)
    ensures AsLeft(r) == AsLeft(x)
    ensures IsRight(x) ==> AsRight(r) == Some(f(AsRight(x).value))
  {
    match x
    case LeftV(v) => LeftV(v)
    case RightV(v) => RightV(f(v))
  }

  // ---------------------------------------------------------------------
  // Extraction

  /** `unwrap_<left>`: panics on the right variant, so the caller must hold
      the left variant; returns the left payload. */
  function UnwrapLeft<L, R>(x: EitherLike<L, R>): (r: L)
    requires IsLeft(x)
    ensures x == LeftV(r)
    ensures AsLeft(x) == Some(r)
  {
    match x
    case LeftV(v) => v
  }

  /** `unwrap_<right>`: panics on the left variant, so the caller must hold
      the right variant; returns the right payload. */
  function UnwrapRight<L, R>(x: EitherLike<L, R>): (r: R)
    requires IsRight(x)
    ensures x == RightV(r)
    ensures AsRight(x) == Some(r)
  {
    match x
    case RightV(v) => v
  }

  // ---------------------------------------------------------------------
  // Properties relating several members

  /** Exactly one of `is_<left>` and `is_<right>` holds. */
  lemma TagExclusive<L, R>(x: EitherLike<L, R>)
    ensures IsLeft(x) != IsRight(x)
  {
  }

  /** Exactly one of the two accessors returns a view. */
  lemma AccessorsExclusive<L, R>(x: EitherLike<L, R>)
    ensures AsLeft(x).Some? != AsRight(x).Some?
  {
  }

  /** `map_<left>` and `map_<right>` with the identity function change
      nothing. */
  lemma MapIdentity<L, R>(x: EitherLike<L, R>)
    ensures MapLeft(x, v => v) == x
    ensures MapRight(x, v => v) == x
  {
  }

  /** A borrow through which nothing is written leaves the value as it
      was. */
  lemma AsMutIdentity<L, R>(x: EitherLike<L, R>)
    ensures AsLeftMut(x, v => v) == if IsLeft(x) then Some(x) else None
    ensures AsRightMut(x, v => v) == if IsRight(x) then Some(x) else None
  {
  }

  /** `map_<left>` and `map_<right>` commute. */
  lemma MapLeftMapRightCommute<L, T, R, U>(x: EitherLike<L, R>, f: L -> T, g: R -> U)
    ensures MapRight(MapLeft(x, f), g) == MapLeft(MapRight(x, g), f)
  {
  }

  /** Unwrapping a mapped value is mapping the unwrapped payload. */
  lemma UnwrapAfterMap<L, T, R, U>(x: EitherLike<L, R>, f: L -> T, g: R -> U)
    ensures IsLeft(x) ==> UnwrapLeft(MapLeft(x, f)) == f(UnwrapLeft(x))
    ensures IsRight(x) ==> UnwrapRight(MapRight(x, g)) == g(UnwrapRight(x))
  {
  }

  /** The usage examples: a primary (left) of 42 and of 10, a secondary
      (right) string, and doubling the left payload. */
  lemma DocExamples()
    ensures IsLeft(EitherLike<int, string>.LeftV(42)) && IsRight(EitherLike<int, string>.RightV("text"))
    ensures AsLeft(EitherLike<int, string>.LeftV(42)) == Some(42)
    ensures AsRight(EitherLike<int, string>.LeftV(10)) == None
    ensures AsLeft(MapLeft(EitherLike<int, string>.LeftV(10), (x: int) => x * 2)) == Some(20)
  {
  }
}
