/** An optional value: either absent (`None`) or holding exactly one value
    (`Some`), with its inspectors, extractors and combinators.

    In Go, absence is a nil pointer field; here the two variants are the two
    constructors of a sum type, so an absent option can never be confused
    with a present zero value.
 */
module Options {

  /** `Some(v)` wraps `v`; `None` holds nothing. The constructors play the
      role of the Go functions `Some` and `None`. */
  datatype Option<+T> = None | Some(value: T)

  /** Go's `error` interface as this package uses it: `nil`, or the value
      built by `errors.New(message)`. */
  datatype GoError = Nil | ErrorString(message: string)

  /** The pair `(T, error)` that `Expect` returns. */
  datatype Expected<+T> = Expected(value: T, err: GoError)

  /** True if the option holds a value. */
  predicate IsSome<T>(o: Option<T>)
    ensures IsSome(o) <==> !IsNone(o)
  {
    match o
    case Some(_) => true
    case None => false
  }

  /** True if the option holds no value. */
  predicate IsNone<T>(o: Option<T>)
    ensures IsNone(o) <==> o == None
  {
    match o
    case None => true
    case Some(_) => false
  }

  /** The held value. Go panics on an absent option; here calling it on one
      is ruled out by the precondition. */
  function Unwrap<T>(o: Option<T>): (v: T)
    requires IsSome(o)
    ensures o == Some(v)
  {
    o.value
  }

  /** The held value, or `defaultValue` when there is none. Never fails. */
  function UnwrapOr<T>(o: Option<T>, defaultValue: T): (v: T)
    ensures IsSome(o) ==> v == Unwrap(o)
    ensures IsNone(o) ==> v == defaultValue
  {
    match o
    case None => defaultValue
    case Some(x) => x
  }

  /** The held value, or the result of the fallback `f` when there is none.
      When a value is held the result does not depend on `f`. */
  function UnwrapOrElse<T>(o: Option<T>, f: () -> T): (v: T)
    ensures IsSome(o) ==> v == Unwrap(o)
    ensures IsNone(o) ==> v == f()
  {
    match o
    case None => f()
    case Some(x) => x
  }

  /** The held value with a nil error, or Go's zero value of `T` (passed in as
      `zero`) together with an error whose message is exactly `errMsg`. */
  function Expect<T>(o: Option<T>, errMsg: string, zero: T): (r: Expected<T>)
    ensures r.err == Nil <==> IsSome(o)
    ensures IsSome(o) ==> r.value == Unwrap(o)
    ensures IsNone(o) ==> r.value == zero && r.err.message == errMsg
  {
    match o
    case None => Expected(zero, ErrorString(errMsg))
    case Some(x) => Expected(x, Nil)
  }

  /** Applies `f` to the held value, if any, and wraps the result. */
  function Map<T, U>(opt: Option<T>, f: T -> U): (r: Option<U>)
    ensures IsSome(r) <==> IsSome(opt)
    ensures IsSome(opt) ==> Unwrap(r) == f(Unwrap(opt))
  {
    match opt
    case None => None
    case Some(x) => Some(f(x))
  }

  /** `None` when `opt` is absent, otherwise `other` unchanged; the value held
      by `opt` is never looked at. */
  function And<T, U>(opt: Option<T>, other: Option<U>): (r: Option<U>)
    ensures IsNone(opt) ==> IsNone(r)
    ensures IsSome(opt) ==> r == other
    ensures IsSome(r) <==> IsSome(opt) && IsSome(other)
  {
    if IsNone(opt) then None else other
  }

  /** `o` itself when it holds a value, otherwise the alternative `opt`. */
  function Or<T>(o: Option<T>, opt: Option<T>): (r: Option<T>)
    ensures IsSome(o) ==> r == o
    ensures IsNone(o) ==> r == opt
    ensures IsSome(r) <==> IsSome(o) || IsSome(opt)
  {
    if IsSome(o) then o else opt
  }

  /** `o` itself when it holds a value satisfying `keep`, otherwise
      `None`. No new value is ever introduced. */
  function Filter<T>(o: Option<T>, keep: T -> bool): (r: Option<T>)
    ensures IsSome(r) <==> IsSome(o) && keep(Unwrap(o))
    ensures IsSome(r) ==> r == o
  {
    if IsSome(o) && keep(o.value) then o else None
  }
}
