/** The few PHP value semantics the configuration provider relies on.

    Merchant settings come back from the host's payment-method configuration as
    either a string or `null`; `Option<string>` models exactly that. The
    provider uses such values in three ways: as a condition (`if ($v)`,
    `(bool)$v`, `&&`), interpolated into a string (`"{$v}"`), and measured with
    `strlen`. Each use has its own rule for `null`, given here once.
 */
module Php {

  /** `null` (None) or a value. Carries the members that make it usable with `:-`. */
  datatype Option<+T> = None | Some(value: T) {

    predicate IsFailure() {
      None?
    }

    function PropagateFailure<U>(): Option<U>
      requires None?
    {
      None
    }

    function Extract(): T
      requires Some?
    {
      value
    }
  }

  /** PHP truthiness of a configuration value: `null`, `""` and `"0"` are false,
      every other string is true. */
  predicate Truthy(v: Option<string>) {
    match v
    case None => false
    case Some(s) => s != "" && s != "0"
  }

  /** `strlen($v)`: a `null` argument counts as the empty string. */
  function StrLen(v: Option<string>): nat {
    match v
    case None => 0
    case Some(s) => |s|
  }

  /** `"{$v}"`: a `null` value interpolates as nothing. */
  function Interp(v: Option<string>): (s: string)
    ensures |s| == StrLen(v)
  {
    match v
    case None => ""
    case Some(s) => s
  }

  /** `substr($s, 0, $n)`: the first `$n` characters, or all of `$s` when it is shorter. */
  function Substr(s: string, n: nat): (r: string)
    ensures r <= s
    ensures |r| == if |s| < n then |s| else n
  {
    if |s| < n then s else s[..n]
  }

  /** A truthy value always has a positive length; the only value with a positive
      length that is still falsy is `"0"`. So a `strlen(...) > 0` test and a
      truthiness test disagree on exactly one input. */
  lemma StrLenVersusTruthy(v: Option<string>)
    ensures Truthy(v) ==> StrLen(v) > 0
    ensures (StrLen(v) > 0 && !Truthy(v)) <==> v == Some("0")
  {
  }
}
