# enumizer, modelled in Dafny

enumizer is a Rust crate of three `macro_rules!` generators. Each one stamps
out a two-variant enum whose type name and variant names the user chooses,
together with a fixed set of methods:

- `alias_option!(Type, None, Some)` gives an Option-like enum: one empty
  variant and one payload variant. It also converts to and from `Option<T>`.
- `alias_result!(Type, Ok, Err)` gives a Result-like enum: a success variant
  and a failure variant. It also converts to and from `Result<T, E>`.
- `alias_either!(Type, Left, Right)` gives an Either-like enum: two symmetric
  payload variants and no conversions.

Every generated method is a single total `match`, so the model is purely
functional. There is one module per macro: `OptionAlias`, `ResultAlias` and
`EitherAlias`. Each holds the generated enum as a generic datatype
(`OptionLike<T>`, `ResultLike<T, E>`, `EitherLike<L, R>`) and its methods as
functions. Module `Canonical` holds Rust's `Option` and `Result`. The
user-chosen type name is fixed as that datatype's name, and the variant names
as `NoneV`/`SomeV`, `OkV`/`ErrV` and `LeftV`/`RightV`. In the table below,
"alias" means a value of the generated enum. Each method is named
after the macro parameter its name is built from, so `is_<some>_and` becomes
`IsSomeAnd` and `map_<left>` becomes `MapLeft`.

Closures become Dafny function-typed parameters. A panicking `unwrap` becomes
a `requires` on the tag. An `as_*_mut` accessor is modelled by its effect:
the caller gets a borrow only on the matching variant and may replace the
payload through it. So `AsSomeMut(x, write)` is `None` when no borrow is
handed out, and otherwise the value after `write` has been applied to the
payload.

The macros generate less than a generator of this kind often offers, and the
model follows the code:
- the derived capabilities are always the same fixed set, with no way to
  configure them;
- there is no short-circuit (`Try`) integration;
- the Either shape has no conversions.

Only `unwrap_<left>` and `unwrap_<right>` name both variants in their panic.
The Option and Result `unwrap` panics name only the variant actually present.

## Model

| member | source | states |
|---|---|---|
| OptionAlias.IsSome | src/option.rs:87-89 | true exactly when the value is not the empty variant |
| OptionAlias.IsNone | src/option.rs:83-85 | always the opposite of `is_<some>` |
| OptionAlias.IsSomeAnd | src/option.rs:91-96 | false on the empty variant; on the payload variant equals `f(payload)` |
| OptionAlias.IsNoneOr | src/option.rs:98-103 | true on the empty variant; equals `not is_<some>_and(not f)`, i.e. `f(payload)` on the payload variant |
| OptionAlias.AsSome | src/option.rs:105-110 | returns a view exactly when the value is tagged some, and the view is that value's payload |
| OptionAlias.AsSomeMut | src/option.rs:112-117 | a borrow exists exactly on the payload variant; writing through it leaves a payload variant holding the written value |
| OptionAlias.Map | src/option.rs:119-124 | keeps the tag; on the payload variant the new payload is `f` of the old one |
| OptionAlias.Unwrap | src/option.rs:126-133 | defined only on the payload variant; returns the payload, so rewrapping it gives back the value |
| OptionAlias.UnwrapOr | src/option.rs:135-140 | the payload when present, the default on the empty variant |
| OptionAlias.UnwrapOrElse | src/option.rs:142-147 | the payload when present, `f()` on the empty variant |
| OptionAlias.FromOption | src/option.rs:150-157 | `Some(v)` becomes the payload variant holding `v`, `None` the empty variant |
| OptionAlias.ToOption | src/option.rs:159-166 | the payload variant becomes `Some` of its payload, the empty variant `None` |
| OptionAlias.TagExclusive | src/option.rs:83-89 | exactly one of `is_<none>` and `is_<some>` holds for every value |
| OptionAlias.MapIdentity | src/option.rs:119-124 | mapping with the identity function returns the original value |
| OptionAlias.MapCompose | src/option.rs:119-124 | mapping with `f` then `g` equals mapping with their composition |
| OptionAlias.UnwrapOrIsUnwrapOrElse | src/option.rs:135-147 | `unwrap_or(d)` equals `unwrap_or_else` with a producer returning `d` |
| OptionAlias.AsSomeMutIdentity | src/option.rs:112-117 | a borrow through which nothing is written leaves the value unchanged |
| OptionAlias.FromThenToOption | src/option.rs:150-166 | Option to alias and back to Option is the identity |
| OptionAlias.ToThenFromOption | src/option.rs:150-166 | alias to Option and back to alias is the identity |
| OptionAlias.FromOptionOnto | src/option.rs:150-157 | every alias value is the conversion of some `Option`, so the conversions are a bijection |
| OptionAlias.ToOptionOnto | src/option.rs:159-166 | every `Option` is the conversion of some alias value |
| OptionAlias.MapCommutesWithToOption | src/option.rs:119-166 | converting a mapped value to `Option` equals mapping the `Option` payload |
| OptionAlias.DocExamples | src/option.rs:24-69 | the documented examples: doubling 10 gives 20, `unwrap_or` on both variants, the conversions of `Some(42)` and `None`, and the six conditional checks |
| ResultAlias.IsOk | src/result.rs:58-60 | true exactly when the value is not a failure |
| ResultAlias.IsErr | src/result.rs:62-64 | always the opposite of `is_<ok>` |
| ResultAlias.AsOk | src/result.rs:66-71 | a view exactly when tagged ok, holding the success payload |
| ResultAlias.AsOkMut | src/result.rs:73-78 | a borrow exists exactly on the ok variant; writing through it stores the written success payload |
| ResultAlias.AsErr | src/result.rs:80-85 | a view exactly when tagged err, holding the failure payload |
| ResultAlias.AsErrMut | src/result.rs:87-92 | a borrow exists exactly on the err variant; writing through it stores the written failure payload |
| ResultAlias.Map | src/result.rs:94-99 | keeps the tag and the failure view; an ok payload becomes `f` of it |
| ResultAlias.MapErr | src/result.rs:101-106 | keeps the tag and the success view; an err payload becomes `op` of it |
| ResultAlias.Unwrap | src/result.rs:108-115 | defined only on the ok variant; returns the success payload |
| ResultAlias.UnwrapOr | src/result.rs:117-122 | the success payload, or the default on a failure |
| ResultAlias.UnwrapOrElse | src/result.rs:124-129 | the success payload, or `op` applied to the failure payload |
| ResultAlias.FromResult | src/result.rs:132-139 | `Ok(v)` becomes the ok variant holding `v`, `Err(e)` the err variant holding `e` |
| ResultAlias.ToResult | src/result.rs:141-148 | the ok variant becomes `Ok` of its payload, the err variant `Err` of its payload |
| ResultAlias.TagExclusive | src/result.rs:58-64 | exactly one of `is_<ok>` and `is_<err>` holds for every value |
| ResultAlias.AccessorsExclusive | src/result.rs:66-92 | exactly one of `as_<ok>` and `as_<err>` returns a view |
| ResultAlias.MapIdentity | src/result.rs:94-106 | `map` and `map_err` with the identity function return the original value |
| ResultAlias.AsMutIdentity | src/result.rs:73-92 | a borrow of either payload through which nothing is written leaves the value unchanged |
| ResultAlias.MapMapErrCommute | src/result.rs:94-106 | applying `map` and `map_err` in either order gives the same value |
| ResultAlias.UnwrapOrIsUnwrapOrElse | src/result.rs:117-129 | `unwrap_or(d)` equals `unwrap_or_else` with a function that ignores the error and returns `d` |
| ResultAlias.FromThenToResult | src/result.rs:132-148 | Result to alias and back to Result is the identity |
| ResultAlias.ToThenFromResult | src/result.rs:132-148 | alias to Result and back to alias is the identity |
| ResultAlias.FromResultOnto | src/result.rs:132-139 | every alias value is the conversion of some `Result`, so the conversions are a bijection |
| ResultAlias.ToResultOnto | src/result.rs:141-148 | every `Result` is the conversion of some alias value |
| ResultAlias.DocExamples | src/result.rs:10-45 | the documented examples: the predicates and accessors on 42 and 10, doubling 10 gives 20, the conversions of `Ok(42)` and `Err(..)` |
| EitherAlias.IsLeft | src/either.rs:43-45 | true exactly when the value is not tagged right |
| EitherAlias.IsRight | src/either.rs:47-49 | always the opposite of `is_<left>` |
| EitherAlias.AsLeft | src/either.rs:51-56 | a view exactly when tagged left, holding the left payload |
| EitherAlias.AsLeftMut | src/either.rs:58-63 | a borrow exists exactly on the left variant; writing through it stores the written left payload |
| EitherAlias.AsRight | src/either.rs:65-70 | a view exactly when tagged right, holding the right payload |
| EitherAlias.AsRightMut | src/either.rs:72-77 | a borrow exists exactly on the right variant; writing through it stores the written right payload |
| EitherAlias.MapLeft | src/either.rs:79-84 | keeps the tag and the right view; a left payload becomes `f` of it |
| EitherAlias.MapRight | src/either.rs:86-91 | keeps the tag and the left view; a right payload becomes `f` of it |
| EitherAlias.UnwrapLeft | src/either.rs:93-100 | defined only on the left variant; returns the left payload |
| EitherAlias.UnwrapRight | src/either.rs:102-109 | defined only on the right variant; returns the right payload |
| EitherAlias.TagExclusive | src/either.rs:43-49 | exactly one of `is_<left>` and `is_<right>` holds for every value |
| EitherAlias.AccessorsExclusive | src/either.rs:51-77 | exactly one of `as_<left>` and `as_<right>` returns a view |
| EitherAlias.MapIdentity | src/either.rs:79-91 | `map_<left>` and `map_<right>` with the identity function return the original value |
| EitherAlias.AsMutIdentity | src/either.rs:58-77 | a borrow of either payload through which nothing is written leaves the value unchanged |
| EitherAlias.MapLeftMapRightCommute | src/either.rs:79-91 | `map_<left>` and `map_<right>` commute |
| EitherAlias.UnwrapAfterMap | src/either.rs:79-109 | unwrapping a mapped value equals applying the function to the unwrapped payload |
| EitherAlias.DocExamples | src/either.rs:10-30 | the documented examples: predicates and accessors on 42, 10 and a string, and doubling the left payload 10 gives 20 |

## Left out

- Macro expansion and identifier construction. The method names are built by
  lower-casing and pasting identifiers with the external `paste` crate. The
  model names its functions directly, with one fixed set of variant names.
- Panic messages. `Unwrap`, `UnwrapLeft` and `UnwrapRight` have a `requires`
  on the tag instead of a panic. So the model does not capture that the
  either panic names both variants, nor that the option and result panics
  name only the variant actually present.
- The derived `Debug`, `Clone`, `Copy`, `PartialEq` and `Eq`. Dafny datatypes
  have structural equality already, and the other derives carry no behaviour.
- The `size_of` layout tests (src/option.rs:171-186, src/result.rs:153-174).
  Storage size and niche packing cannot be expressed in Dafny.
- AsSomeMut, AsOkMut, AsErrMut, AsLeftMut, AsRightMut: these do not model
  borrowing or aliasing. A mutable borrow is modelled only by the value that
  results from one write through it.
- Closures are total, side-effect-free Dafny functions. Rust's `FnOnce`
  closures may have side effects or panic, and the model does not capture
  either.
- src/lib.rs and src/examples.rs. They only declare modules and invoke the
  macros; no logic is in them.
- Capability lists and a short-circuit (`Try`) integration. The macros here
  do not generate them.
