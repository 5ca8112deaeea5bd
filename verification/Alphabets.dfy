/** Texts over an alphabet. */
module Alphabets {
  predicate Uses(text: string, alphabet: string)
  {
    forall c :: c in text ==> c in alphabet
  }

  const Lower := "abcdefghijklmnopqrstuvwxyz"
  const Upper := "ABCDEFGHIJKLMNOPQRSTUVWXYZ"
  const Digits := "0123456789"

  predicate IsHexDigit(c: char)
  {
    '0' <= c <= '9' || 'a' <= c <= 'f'
  }

  lemma HexDigits(c: char)
    ensures IsHexDigit(c) <==> c in "0123456789abcdef"
  {
    var digits := "0123456789abcdef";
    if '0' <= c <= '9' { assert digits[c as int - '0' as int] == c; }
    if 'a' <= c <= 'f' { assert digits[c as int - 'a' as int + 10] == c; }
  }

  lemma LowerIs(c: char)
    ensures c in Lower <==> 'a' <= c <= 'z'
  {
    if 'a' <= c <= 'z' { assert Lower[c as int - 'a' as int] == c; }
  }

  lemma UpperIs(c: char)
    ensures c in Upper <==> 'A' <= c <= 'Z'
  {
    if 'A' <= c <= 'Z' { assert Upper[c as int - 'A' as int] == c; }
  }

  lemma DigitsAre(c: char)
    ensures c in Digits <==> '0' <= c <= '9'
  {
    if '0' <= c <= '9' { assert Digits[c as int - '0' as int] == c; }
  }

  lemma HexDigitsUsed(hex: string)
    ensures Uses(hex, "0123456789abcdef") <==> forall i :: 0 <= i < |hex| ==> IsHexDigit(hex[i])
  {
    forall i | 0 <= i < |hex| ensures IsHexDigit(hex[i]) <==> hex[i] in "0123456789abcdef" { HexDigits(hex[i]); }
    if Uses(hex, "0123456789abcdef") {
      forall i | 0 <= i < |hex| ensures IsHexDigit(hex[i]) { assert hex[i] in hex; }
    }
  }
}
