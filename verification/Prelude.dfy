/** Optional values and results, and the text helpers the source takes from its platform. */
module Prelude {

  datatype Option<+T> = None | Some(value: T)

  datatype Result<+T, +E> = Ok(value: T) | Err(error: E)

  /** A text field counts as present only when it is set and not empty. */
  predicate Present(text: Option<string>) {
    text.Some? && text.value != ""
  }

  function OrElse<T>(first: Option<T>, second: Option<T>): Option<T> {
    if first.Some? then first else second
  }

  function Max(a: int, b: int): int {
    if a < b then b else a
  }

  function Min(a: int, b: int): int {
    if a < b then a else b
  }

  function Pow2(n: nat): nat {
    if n == 0 then 1 else 2 * Pow2(n - 1)
  }

  /** ASCII lower case. No other letter folds to a hexadecimal digit or to 'x'. */
  function Lower(c: char): char {
    if 'A' <= c <= 'Z' then (c as int + 32) as char else c
  }

  function ToLower(text: string): (lower: string)
    ensures |lower| == |text|
    ensures forall i :: 0 <= i < |text| ==> lower[i] == Lower(text[i])
  {
    seq(|text|, i requires 0 <= i < |text| => Lower(text[i]))
  }

  /** White space and line terminators as String.prototype.trim removes them. */
  predicate IsSpace(c: char) {
    var code := c as int;
    9 <= code <= 13 || code == 32 || code == 160 || code == 0x1680 || 0x2000 <= code <= 0x200A
    || code == 0x2028 || code == 0x2029 || code == 0x202F || code == 0x205F || code == 0x3000 || code == 0xFEFF
  }

  function TrimStart(text: string): string {
    if text != "" && IsSpace(text[0]) then TrimStart(text[1..]) else text
  }

  function TrimEnd(text: string): string {
    if text != "" && IsSpace(text[|text| - 1]) then TrimEnd(text[..|text| - 1]) else text
  }

  function Trim(text: string): string {
    TrimEnd(TrimStart(text))
  }
}

/** Hexadecimal block heights and hashes, as packages/core and the RPC client read them. */
module Hex {
  import opened Prelude

  predicate IsDigit(c: char) {
    '0' <= c <= '9' || 'a' <= c <= 'f' || 'A' <= c <= 'F'
  }

  function DigitValue(c: char): (value: nat)
    requires IsDigit(c)
    ensures value < 16
  {
    if '0' <= c <= '9' then c as int - '0' as int
    else if 'a' <= c <= 'f' then c as int - 'a' as int + 10
    else c as int - 'A' as int + 10
  }

  predicate AllDigits(text: string) {
    forall i :: 0 <= i < |text| ==> IsDigit(text[i])
  }

  function Value(digits: string): nat
    requires AllDigits(digits)
  {
    if digits == "" then 0
    else 16 * Value(digits[..|digits| - 1]) + DigitValue(digits[|digits| - 1])
  }

  predicate HasPrefix(text: string) {
    |text| >= 2 && text[0] == '0' && (text[1] == 'x' || text[1] == 'X')
  }

  /** A height is "0x" and at least one digit, in either case; anything else is no height. */
  function ParseHeight(text: Option<string>): Option<nat> {
    if text.Some? && HasPrefix(text.value) && |text.value| > 2 && AllDigits(text.value[2..])
    then Some(Value(text.value[2..]))
    else None
  }

  /** The 32-byte hash a node answered, in lower case, or nothing when it is not one. */
  function NormalizeHash(text: Option<string>): Option<string> {
    if !Present(text) then None
    else
      var normalized := ToLower(Trim(text.value));
      if |normalized| == 66 && normalized[0] == '0' && normalized[1] == 'x' && AllDigits(normalized[2..])
      then Some(normalized)
      else None
  }
}
