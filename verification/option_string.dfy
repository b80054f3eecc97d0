/** The diagnostic rendering of an option: `Some(<value>)` or `None`.

    Go formats the held value with `fmt.Sprintf("%v", ...)`; that formatter is
    not modelled, so the rendering of a value is an abstract `show` function
    supplied by the caller.
 */
module OptionString {
  import opened Options

  /** The rendering of `o`: the literal `None`, or `Some(` followed by the
      rendering of the held value and a closing parenthesis. */
  function String<T>(o: Option<T>, show: T -> string): (s: string)
    ensures IsNone(o) <==> s == "None"
    ensures IsSome(o) ==> |s| == |show(Unwrap(o))| + 6
    ensures IsSome(o) ==> Payload(s) == Some(show(Unwrap(o)))
  {
    if IsSome(o) then "Some(" + show(o.value) + ")" else "None"
  }

  /** The text between a leading `Some(` and a trailing `)`, or `None` when `s`
      does not have that shape (in particular for the literal `None`). */
  function Payload(s: string): (r: Option<string>)
    ensures IsSome(r) ==> s == "Some(" + Unwrap(r) + ")"
  {
    if 6 <= |s| && s[..5] == "Some(" && s[|s| - 1] == ')' then
      Some(s[5..|s| - 1])
    else
      None
  }

  /** Reading the payload back out of a rendering gives the rendering of the
      held value, and nothing for `None`. */
  lemma StringRoundTrip<T>(o: Option<T>, show: T -> string)
    ensures Payload(String(o, show)) == Map(o, show)
  {
  }

  /** Distinct options render differently whenever `show` tells their values
      apart. */
  lemma StringInjective<T>(o1: Option<T>, o2: Option<T>, show: T -> string)
    requires forall x, y :: show(x) == show(y) ==> x == y
    ensures String(o1, show) == String(o2, show) ==> o1 == o2
  {
  }

  /** The rendering tells every two options apart exactly when `show` tells
      every two values apart. */
  lemma StringUnambiguous<T>(show: T -> string)
    ensures (forall o1, o2 :: String(o1, show) == String(o2, show) ==> o1 == o2)
        <==> (forall x, y :: show(x) == show(y) ==> x == y)
  {
    if forall x, y :: show(x) == show(y) ==> x == y {
      forall o1, o2 | String(o1, show) == String(o2, show)
        ensures o1 == o2
      {
        StringInjective(o1, o2, show);
      }
    }
    if forall o1, o2 :: String(o1, show) == String(o2, show) ==> o1 == o2 {
      forall x, y | show(x) == show(y)
        ensures x == y
      {
        assert String(Some(x), show) == String(Some(y), show);
      }
    }
  }
}
