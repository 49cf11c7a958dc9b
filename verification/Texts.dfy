/** The small text rules that heights, hashes and keys rest on, each against an alphabet written out. */
module Texts {
  import opened Prelude
  import Hex

  const UPPER := "ABCDEFGHIJKLMNOPQRSTUVWXYZ"

  const LOWER := "abcdefghijklmnopqrstuvwxyz"

  const DIGITS := "0123456789abcdef"

  const CAPITAL_DIGITS := "0123456789ABCDEF"

  /** Lower case maps each capital letter to its small one, and leaves everything else alone. */
  lemma LowerExactlyWhen(c: char)
    ensures forall i :: 0 <= i < 26 ==> Lower(UPPER[i]) == LOWER[i]
    ensures c !in UPPER ==> Lower(c) == c
  {
    assert 'A' <= c <= 'Z' ==> UPPER[c as int - 'A' as int] == c;
  }

  /** The digits and their values, in either case. */
  lemma DigitsExactlyWhen(c: char)
    ensures forall i :: 0 <= i < 16 ==> Hex.IsDigit(DIGITS[i]) && Hex.DigitValue(DIGITS[i]) == i
    ensures forall i :: 0 <= i < 16 ==> Hex.IsDigit(CAPITAL_DIGITS[i]) && Hex.DigitValue(CAPITAL_DIGITS[i]) == i
    ensures Hex.IsDigit(c) ==> c in DIGITS || c in CAPITAL_DIGITS
  {
    assert '0' <= c <= '9' ==> DIGITS[c as int - '0' as int] == c;
    assert 'a' <= c <= 'f' ==> DIGITS[c as int - 'a' as int + 10] == c;
    assert 'A' <= c <= 'F' ==> CAPITAL_DIGITS[c as int - 'A' as int + 10] == c;
  }

  /** What trimming removes: tabs, line ends, blanks, and the byte order mark. */
  lemma SpacesExactlyWhen(c: char)
    ensures IsSpace(c) <==>
              c in {'\t', '\n', '\U{000B}', '\U{000C}', '\r', ' ', '\U{00A0}', '\U{1680}', '\U{2000}', '\U{2001}', '\U{2002}',
                    '\U{2003}', '\U{2004}', '\U{2005}', '\U{2006}', '\U{2007}', '\U{2008}', '\U{2009}', '\U{200A}',
                    '\U{2028}', '\U{2029}', '\U{202F}', '\U{205F}', '\U{3000}', '\U{FEFF}'}
  {
  }

  /** A height is "0x" or "0X" and at least one digit. */
  lemma HeightExactlyWhen(text: string)
    ensures Hex.ParseHeight(Some(text)).Some? <==>
              |text| >= 3 && text[0] == '0' && text[1] in "xX" && forall i :: 2 <= i < |text| ==> Hex.IsDigit(text[i])
    ensures Hex.ParseHeight(None).None?
  {
    if |text| >= 3 {
      assert forall i :: 2 <= i < |text| ==> text[i] == text[2..][i - 2];
    }
  }

  predicate SameButCase(a: string, b: string) {
    |a| == |b| && forall i :: 0 <= i < |a| ==> Lower(a[i]) == Lower(b[i])
  }

  predicate IsHash(text: string) {
    |text| == 66 && text[0] == '0' && text[1] in "xX" && forall i :: 2 <= i < |text| ==> Hex.IsDigit(text[i])
  }

  lemma LowerKeepsDigits(c: char)
    ensures Hex.IsDigit(Lower(c)) <==> Hex.IsDigit(c)
    ensures Lower(c) == '0' <==> c == '0'
    ensures Lower(c) == 'x' <==> c in "xX"
  {
  }

  /** A hash is read if and only if it is "0x" and 64 digits between blanks; two are the same if and only if they differ at most in case. */
  lemma HashExactlyWhen(a: string, b: string)
    ensures Hex.NormalizeHash(Some(a)).Some? <==> IsHash(Trim(a))
    ensures IsHash(Trim(a)) && IsHash(Trim(b)) ==>
              (Hex.NormalizeHash(Some(a)) == Hex.NormalizeHash(Some(b)) <==> SameButCase(Trim(a), Trim(b)))
    ensures Hex.NormalizeHash(None).None?
  {
    IsHashLowered(Trim(a));
    if SameButCase(Trim(a), Trim(b)) {
      assert ToLower(Trim(a)) == ToLower(Trim(b));
    }
    if ToLower(Trim(a)) == ToLower(Trim(b)) {
      var x, y := ToLower(Trim(a)), ToLower(Trim(b));
      assert forall i :: 0 <= i < |x| ==> x[i] == y[i];
    }
    IsHashLowered(Trim(b));
    assert a == "" ==> Trim(a) == "";
  }

  lemma IsHashLowered(text: string)
    ensures IsHash(text) <==>
              var lower := ToLower(text);
              |lower| == 66 && lower[0] == '0' && lower[1] == 'x' && Hex.AllDigits(lower[2..])
  {
    var lower := ToLower(text);
    forall i | 0 <= i < |text|
      ensures Hex.IsDigit(lower[i]) <==> Hex.IsDigit(text[i])
      ensures lower[i] == '0' <==> text[i] == '0'
      ensures lower[i] == 'x' <==> text[i] in "xX"
    {
      LowerKeepsDigits(text[i]);
    }
    if |lower| == 66 {
      assert forall i :: 2 <= i < 66 ==> lower[i] == lower[2..][i - 2];
    }
  }
}
