# Optional values in Dafny

A model of the Go package `option`: a generic optional value `Option[T]`, which is either absent (`None`) or holds exactly one value (`Some`). The model covers the whole package:

- the constructors `Some` and `None`;
- the inspectors `IsSome` and `IsNone`;
- the extractors `Unwrap`, `UnwrapOr`, `UnwrapOrElse` and `Expect`;
- the combinators `Map`, `And`, `Or` and `Filter`;
- the diagnostic formatter `String`.

Go marks absence with a nil `*T` field. Here the option is a sum type, `datatype Option<T> = None | Some(value: T)`, so an absent option cannot be mistaken for a present zero value. Every operation is a pure, total function, except `Unwrap`. Where Go panics on `None`, `Unwrap` has the precondition `IsSome(o)`.

Files:

- `option.dfy` (module `Options`): the datatype and the operations. Each contract states the result in both cases.
- `option_laws.dfy` (module `OptionLaws`): algebraic laws that relate the operations to each other.
- `option_string.dfy` (module `OptionString`): the `Some(...)`/`None` rendering, a reader for its payload, and the round trip between the two.

Modelling choices:

- Go methods such as `o.Or(alt)` are module-level functions such as `Or(o, alt)`. The free functions `Map` and `And` are written the same way.
- Go's `error` is the datatype `GoError = Nil | ErrorString(message)`. The `(T, error)` pair that `Expect` returns is `Expected(value, err)`.
- `Expect` returns Go's zero value `*new(T)` on the error path. Dafny has no expression for a type's zero value, so the caller passes it in as `zero`.
- Callbacks are Dafny function values. They take no heap reads and have no preconditions.
- The variants keep the code's names `Some`/`None`, and `String` renders them as `Some(v)`/`None`, as the code does.

## Model

| member | source | states |
|---|---|---|
| Options.IsSome | option.go:23-26 | an option is present exactly when it is not absent |
| Options.IsNone | option.go:28-31 | an option is absent exactly when it is `None` |
| Options.Unwrap | option.go:33-39 | callable only on a present option (Go panics otherwise); the result is the wrapped value, i.e. `o == Some(result)` |
| Options.UnwrapOr | option.go:41-47 | equals `Unwrap(o)` when present and the default when absent; never fails |
| Options.UnwrapOrElse | option.go:49-55 | equals `Unwrap(o)` when present, whatever the fallback; equals `f()` when absent |
| Options.Expect | option.go:57-63 | the error is nil exactly when the option is present; if present, the value is the held one; if absent, the value is the supplied zero value and the error message is exactly `errMsg` |
| Options.Map | option.go:65-71 | the result is present iff the input is; when present it holds `f` applied to the input's value |
| Options.And | option.go:73-79 | `None` when the first option is absent, otherwise exactly `other`; present iff both are present |
| Options.Or | option.go:81-87 | the receiver when it is present, otherwise the alternative; present iff either one is |
| Options.Filter | option.go:89-95 | present iff the input is present and its value satisfies the predicate; a present result is the input itself |
| OptionString.String | option.go:97-103 | the rendering is the literal `None` exactly for an absent option; a present option renders as `Some(` + the value's rendering + `)`, which `Payload` reads back |
| OptionString.Payload | option.go:98-103 | a payload read back from a string is one that the string wraps as `Some(` payload `)` |
| OptionString.StringRoundTrip | option.go:98-103 | reading the payload of a rendering gives `Map(o, show)`: the shown value for `Some`, nothing for `None` |
| OptionString.StringInjective | option.go:98-103 | if `show` is injective, two options with the same rendering are equal |
| OptionString.StringUnambiguous | option.go:98-103 | the rendering is injective on options if and only if `show` is injective on values |
| OptionLaws.ConstructorsInspect | option.go:13-31 | `Some(v)` is present and not absent; `None` is absent and not present |
| OptionLaws.InspectorsComplementary | option.go:23-31 | exactly one of `IsSome`, `IsNone` holds of every option |
| OptionLaws.UnwrapSome | option.go:33-39 | `Unwrap(Some(v)) == v`, a corollary of `Unwrap`'s contract |
| OptionLaws.UnwrapOrCases | option.go:41-47 | `UnwrapOr(Some(v), d) == v` and `UnwrapOr(None, d) == d`, a corollary of `UnwrapOr`'s contract |
| OptionLaws.UnwrapOrElseLazy | option.go:49-55 | on a present option any two fallbacks give the same result, the held value |
| OptionLaws.UnwrapOrIsUnwrapOrElse | option.go:41-55 | `UnwrapOr(o, d)` is `UnwrapOrElse` with the constant fallback `d` |
| OptionLaws.ExpectIsUnwrapOr | option.go:41-63 | the value part of `Expect` is `UnwrapOr(o, zero)`; the error is `Nil` when present and `ErrorString(errMsg)` when absent |
| OptionLaws.MapCases | option.go:65-71 | `Map(None, f) == None` and `Map(Some(v), f) == Some(f(v))`, a corollary of `Map`'s contract |
| OptionLaws.MapIdentity | option.go:65-71 | mapping the identity function returns the option unchanged |
| OptionLaws.MapComposition | option.go:65-71 | mapping `f` then `g` equals mapping their composition once |
| OptionLaws.AndIgnoresPayload | option.go:73-79 | `And` depends only on whether the first option is present, not on its value |
| OptionLaws.OrNoneIdentity | option.go:81-87 | `Or(o, None) == o` and `Or(None, alt) == alt` |
| OptionLaws.OrAssociative | option.go:81-87 | `Or` picks the first present option of a chain, however the chain is grouped |
| OptionLaws.OrIdempotent | option.go:81-87 | `Or(o, o) == o` |
| OptionLaws.FilterNeverInvents | option.go:89-95 | the result of `Filter` is `None` or the input itself |
| OptionLaws.FilterIdempotent | option.go:89-95 | filtering twice by the same predicate equals filtering once |
| OptionLaws.FilterConjunction | option.go:89-95 | filtering by `p` then `q` equals filtering once by `p && q` |

## Left out

- Pointer representation: the `value *T` field and the `&v` in `Some` (option.go:9-16) are replaced by the sum type. Nil checks and pointer aliasing are not modelled. Equalities in `OptionLaws` are value equalities (same presence, equal payload), not Go's `==` on options, which compares the `*T` pointers. For example, Go's `Map(o, id) == o` is false for a present `o`, because `Map` allocates a fresh pointer through `Some`.
- Panics: the panic in `Unwrap` is a precondition. The panic message is not modelled.
- Error identity: the model keeps the message of the `errors.New` result, not the identity of the error object.
- OptionString.String: Go renders the value with `fmt.Sprintf("%v", ...)`. That formatter is a foreign library call, so the rendering of a value is an abstract `show: T -> string` parameter, and only the `None` literal and the `Some(`…`)` shape are stated.
- Nil callbacks: Go accepts a nil `f` or `predicate` and panics when it calls one: `UnwrapOrElse` on `None` (option.go:52), `Map` on `Some` (option.go:70) and `Filter` on `Some` (option.go:91). Dafny function values are never null, so these panic paths are not modelled.
- Callback effects: the model does not count calls. So "`f` is called at most once" and "the fallback is not called when a value is present" are stated only through the result equations. The result of `UnwrapOrElse` on a present option does not depend on the fallback, and `Map` of `None` does not use `f`. Panics inside callbacks are not modelled either.
