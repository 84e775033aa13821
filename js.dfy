/**
 * The small part of JavaScript's value semantics that the server's input
 * guards depend on: the shapes a parsed JSON value can take, `typeof` and
 * `Number.isInteger` tests, truthiness, `Math.round`, clamping, and the
 * character classes used by `String.prototype.trim` and the regular
 * expressions `\d` and `\s`.
 */
module Js {

  /** A JavaScript number met in a parsed JSON body. `JSON.parse` never yields
      NaN, but a literal beyond the double range (such as 1e999) becomes an
      infinity. */
  datatype Num = Finite(x: real) | PosInf | NegInf

  /** A value read from a parsed JSON object; `Object` stands for any object or array. */
  datatype Value = Undefined | Null | Bool(b: bool) | Number(n: Num) | Str(s: string) | Object

  /** JavaScript truthiness. */
  predicate Truthy(v: Value) {
    match v
    case Undefined => false
    case Null => false
    case Bool(b) => b
    case Number(n) => !(n.Finite? && n.x == 0.0)
    case Str(s) => s != ""
    case Object => true
  }

  /** `Number.isInteger(v)`: a finite number with no fractional part. */
  predicate IsInteger(v: Value) {
    v.Number? && v.n.Finite? && v.n.x == v.n.x.Floor as real
  }

  /** `Math.round` on a finite number: the nearest integer, halves rounding up. */
  function Round(x: real): (r: int)
    ensures r as real - 0.5 <= x < r as real + 0.5
  {
    (x + 0.5).Floor
  }

  /** `Math.max(lo, Math.min(hi, x))` for `lo <= hi`. */
  function Clamp(lo: int, hi: int, x: int): (r: int)
    requires lo <= hi
    ensures lo <= r <= hi
    ensures lo <= x <= hi ==> r == x
    ensures x < lo ==> r == lo
    ensures hi < x ==> r == hi
  {
    if x < lo then lo else if x > hi then hi else x
  }

  /** `\d` without the `u` flag: an ASCII decimal digit. */
  predicate IsDigit(c: char) {
    '0' <= c <= '9'
  }

  /** Every character matches `\d`. */
  predicate AllDigits(s: string) {
    forall i :: 0 <= i < |s| ==> IsDigit(s[i])
  }

  /** The characters `trim()` removes and `\s` matches: ECMAScript WhiteSpace
      and LineTerminator code points. */
  predicate IsSpace(c: char) {
    var n := c as int;
    n == 0x09 || n == 0x0A || n == 0x0B || n == 0x0C || n == 0x0D || n == 0x20
    || n == 0xA0 || n == 0x1680 || (0x2000 <= n <= 0x200A) || n == 0x2028 || n == 0x2029
    || n == 0x202F || n == 0x205F || n == 0x3000 || n == 0xFEFF
  }
}
