/** JavaScript value conventions shared by the handlers: values that may be
    null or undefined, truthiness, the `||` fallback operator on strings and
    numbers, and ASCII case mapping. */
module Js {

  /** A value that may be missing (JavaScript `null` or `undefined`). */
  datatype Option<+T> = None | Some(value: T)

  /** Truthiness of a string that may be missing: `null`, `undefined` and the
      empty string are falsy, every other string is truthy. */
  predicate Truthy(s: Option<string>) {
    s.Some? && s.value != ""
  }

  /** `a || b` where both operands are strings that may be missing. */
  function Or(a: Option<string>, b: Option<string>): Option<string> {
    if Truthy(a) then a else b
  }

  /** `a || "literal"`: the fallback chain ends in a string literal. */
  function OrElse(a: Option<string>, fallback: string): string {
    if Truthy(a) then a.value else fallback
  }

  /** `a || null`: a missing or empty string becomes `null`. */
  function OrNull(a: Option<string>): Option<string> {
    if Truthy(a) then a else None
  }

  /** Truthiness of a number that may be missing: `null`, `undefined` and 0 are
      falsy (NaN cannot come out of a JSON document). */
  predicate NumTruthy(x: Option<real>) {
    x.Some? && x.value != 0.0
  }

  /** `x || 0` on a number that may be missing. */
  function NumOrZero(x: Option<real>): real {
    if NumTruthy(x) then x.value else 0.0
  }

  /** `toUpperCase` on the ASCII letters; every other character is kept. */
  function AsciiUpper(s: string): (r: string)
    ensures |r| == |s|
    ensures forall i | 0 <= i < |r| :: !('a' <= r[i] <= 'z')
    ensures forall i | 0 <= i < |s| && !('a' <= s[i] <= 'z') :: r[i] == s[i]
    ensures forall i | 0 <= i < |s| && 'a' <= s[i] <= 'z' :: 'A' <= r[i] <= 'Z' && r[i] as int == s[i] as int - 32
  {
    seq(|s|, i requires 0 <= i < |s| => if 'a' <= s[i] <= 'z' then (s[i] as int - 32) as char else s[i])
  }

  /** `toLowerCase` on the ASCII letters; every other character is kept. */
  function AsciiLower(s: string): (r: string)
    ensures |r| == |s|
    ensures forall i | 0 <= i < |r| :: !('A' <= r[i] <= 'Z')
    ensures forall i | 0 <= i < |s| && !('A' <= s[i] <= 'Z') :: r[i] == s[i]
    ensures forall i | 0 <= i < |s| && 'A' <= s[i] <= 'Z' :: 'a' <= r[i] <= 'z' && r[i] as int == s[i] as int + 32
  {
    seq(|s|, i requires 0 <= i < |s| => if 'A' <= s[i] <= 'Z' then (s[i] as int + 32) as char else s[i])
  }
}
