/** The few pieces of JavaScript string semantics the controller relies on. */
module JsString {
  import opened Wrappers

  /** True for exactly the code points that the regular-expression class `\s` matches:
      the ECMAScript WhiteSpace and LineTerminator characters. */
  predicate IsWhitespace(c: char) {
    || c == '\t' || c == '\n' || c == '\U{000B}' || c == '\U{000C}' || c == '\r'
    || c == ' ' || c == '\U{00A0}' || c == '\U{1680}'
    || ('\U{2000}' <= c <= '\U{200A}')
    || c == '\U{2028}' || c == '\U{2029}' || c == '\U{202F}' || c == '\U{205F}'
    || c == '\U{3000}' || c == '\U{FEFF}'
  }

  /** Number of UTF-16 code units needed for one code point. */
  function CodeUnits(c: char): nat {
    if c as int > 0xFFFF then 2 else 1
  }

  /** JavaScript's `s.length`: the number of UTF-16 code units of `s`, so a code point
      outside the Basic Multilingual Plane counts twice. */
  function Utf16Length(s: string): (n: nat)
    ensures |s| <= n <= 2 * |s|
    ensures (forall i :: 0 <= i < |s| ==> s[i] as int <= 0xFFFF) ==> n == |s|
  {
    if |s| == 0 then 0 else Utf16Length(s[..|s| - 1]) + CodeUnits(s[|s| - 1])
  }

  /** JavaScript truthiness of a request field that is either a string or absent:
      `undefined`, `null` and the empty string are falsy. */
  predicate Truthy(field: Option<string>) {
    field.Some? && field.value != ""
  }

  /** The text a destructured string field contributes to a call's arguments; a missing
      field never reaches a call, so the empty string only fills the slot. */
  function OrEmpty(field: Option<string>): string {
    if field.Some? then field.value else ""
  }
}
