/** Algebraic laws of the optional-value operations: how the constructors,
    inspectors, extractors and combinators relate to one another. */
module OptionLaws {
  import opened Options

  /** `Some(v)` is present and not absent; `None` is absent and not present. */
  lemma ConstructorsInspect<T>(v: T)
    ensures IsSome(Some(v)) && !IsNone(Some(v))
    ensures IsNone<T>(None) && !IsSome<T>(None)
  {
  }

  /** Exactly one of the two inspectors holds of any option. */
  lemma InspectorsComplementary<T>(o: Option<T>)
    ensures IsSome(o) != IsNone(o)
  {
  }

  /** Unwrapping a freshly wrapped value gives that value back; the contract
      of `Unwrap` applied to a constructor. */
  lemma UnwrapSome<T>(v: T)
    ensures Unwrap(Some(v)) == v
  {
  }

  /** `UnwrapOr` on the two constructors; the contract of `UnwrapOr` applied
      to each of them. */
  lemma UnwrapOrCases<T>(v: T, d: T)
    ensures UnwrapOr(Some(v), d) == v
    ensures UnwrapOr(None, d) == d
  {
  }

  /** `UnwrapOrElse` never consults its fallback when a value is held: any two
      fallbacks give the same result. */
  lemma UnwrapOrElseLazy<T>(v: T, f: () -> T, g: () -> T)
    ensures UnwrapOrElse(Some(v), f) == UnwrapOrElse(Some(v), g) == v
  {
  }

  /** `UnwrapOr` is `UnwrapOrElse` with a constant fallback. */
  lemma UnwrapOrIsUnwrapOrElse<T>(o: Option<T>, d: T)
    ensures UnwrapOr(o, d) == UnwrapOrElse(o, () => d)
  {
  }

  /** The value part of `Expect` is `UnwrapOr` with Go's zero value as the
      default, and the error carries the message exactly when there is one. */
  lemma ExpectIsUnwrapOr<T>(o: Option<T>, errMsg: string, zero: T)
    ensures Expect(o, errMsg, zero).value == UnwrapOr(o, zero)
    ensures Expect(o, errMsg, zero).err == (if IsSome(o) then Nil else ErrorString(errMsg))
  {
  }

  /** `Map` on the two constructors; the contract of `Map` applied to each of
      them. */
  lemma MapCases<T, U>(v: T, f: T -> U)
    ensures Map(None, f) == None
    ensures Map(Some(v), f) == Some(f(v))
  {
  }

  /** Mapping the identity function changes nothing. */
  lemma MapIdentity<T>(o: Option<T>)
    ensures Map(o, x => x) == o
  {
  }

  /** Mapping twice is mapping the composition once. */
  lemma MapComposition<T, U, V>(o: Option<T>, f: T -> U, g: U -> V)
    ensures Map(Map(o, f), g) == Map(o, x => g(f(x)))
  {
  }

  /** `And` looks only at whether its first argument is present, never at the
      value it holds. */
  lemma AndIgnoresPayload<T, U>(o1: Option<T>, o2: Option<T>, other: Option<U>)
    requires IsSome(o1) == IsSome(o2)
    ensures And(o1, other) == And(o2, other)
  {
  }

  /** `None` is a left and a right identity of `Or`. */
  lemma OrNoneIdentity<T>(o: Option<T>)
    ensures Or(o, None) == o
    ensures Or(None, o) == o
  {
  }

  /** `Or` keeps the first present option of a chain, however it is grouped. */
  lemma OrAssociative<T>(a: Option<T>, b: Option<T>, c: Option<T>)
    ensures Or(Or(a, b), c) == Or(a, Or(b, c))
  {
  }

  /** `Or` of an option with itself is that option. */
  lemma OrIdempotent<T>(o: Option<T>)
    ensures Or(o, o) == o
  {
  }

  /** `Filter` never introduces a value: its result is `None` or the input. */
  lemma FilterNeverInvents<T>(o: Option<T>, keep: T -> bool)
    ensures Filter(o, keep) == None || Filter(o, keep) == o
  {
  }

  /** Filtering twice by the same predicate is filtering once. */
  lemma FilterIdempotent<T>(o: Option<T>, keep: T -> bool)
    ensures Filter(Filter(o, keep), keep) == Filter(o, keep)
  {
  }

  /** Two filters in a row are one filter by the conjunction. */
  lemma FilterConjunction<T>(o: Option<T>, p: T -> bool, q: T -> bool)
    ensures Filter(Filter(o, p), q) == Filter(o, x => p(x) && q(x))
  {
  }
}
