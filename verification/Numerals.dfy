/** The numerals of the language as a grammar, and the lexer's scan of a number against it. */
module Numerals {
  import opened Wrappers
  import opened Lexer

  predicate AllIn(p: char -> bool, chars: string, i: nat, j: nat) {
    i <= j <= |chars| && forall k :: i <= k < j ==> p(chars[k])
  }

  /** Nothing, or a point and digits, the first of them no underscore. */
  predicate Fraction(chars: string, a: nat, b: nat) {
    a == b || (At(chars, a, '.') && DigitAt(chars, a + 1) && a + 1 < b && AllIn(Decimal, chars, a + 1, b))
  }

  /** Nothing, or the letter of an exponent, a sign or none, and at least one digit. */
  predicate Scale(chars: string, b: nat, j: nat) {
    || b == j
    || (b < |chars| && ExponentLetter(chars[b]) && b + 1 < j && AllIn(IsDigit, chars, b + 1, j))
    || (b < |chars| && ExponentLetter(chars[b]) && SignAt(chars, b + 1) && b + 2 < j && AllIn(IsDigit, chars, b + 2, j))
  }

  /** `0x`, `0b` or `0o` and whatever digits follow. */
  predicate Prefixed(chars: string, i: nat, j: nat) {
    && i + 2 <= j <= |chars| && chars[i] == '0' && RadixLetter(chars[i + 1])
    && AllIn(if HexLetter(chars[i + 1]) then Hexadecimal else Decimal, chars, i + 2, j)
  }

  predicate PlainAt(chars: string, i: nat, j: nat, a: nat, b: nat) {
    i < a <= b <= j && AllIn(Decimal, chars, i, a) && Fraction(chars, a, b) && Scale(chars, b, j)
  }

  /** Digits, a fraction and a scale. */
  ghost predicate Plain(chars: string, i: nat, j: nat) {
    exists a: nat, b: nat :: PlainAt(chars, i, j, a, b)
  }

  /** A numeral stands from `i` to `j`. */
  ghost predicate Numeral(chars: string, i: nat, j: nat) {
    i < j <= |chars| && IsDigit(chars[i]) && (Prefixed(chars, i, j) || Plain(chars, i, j))
  }

  lemma PrefixedEnds(chars: string, i: nat, j: nat)
    requires i < |chars| && Radix(chars, i)
    ensures Prefixed(chars, i, NumberEnd(chars, i))
    ensures Numeral(chars, i, j) ==> j <= NumberEnd(chars, i)
  {
    if Plain(chars, i, j) {
      var a: nat, b: nat :| PlainAt(chars, i, j, a, b);
      assert a > i + 1 ==> Decimal(chars[i + 1]);
    }
  }

  lemma PlainStands(chars: string, i: nat)
    requires i < |chars| && IsDigit(chars[i]) && !Radix(chars, i)
    ensures Plain(chars, i, NumberEnd(chars, i))
  {
    var a := RunEnd(Decimal, chars, i);
    var b := FractionEnd(chars, a);
    assert PlainAt(chars, i, NumberEnd(chars, i), a, b);
  }

  lemma PlainEnds(chars: string, i: nat, j: nat, a: nat, b: nat)
    requires i < |chars| && IsDigit(chars[i]) && !Radix(chars, i) && j <= |chars| && PlainAt(chars, i, j, a, b)
    ensures j <= NumberEnd(chars, i)
  {
    var digits := RunEnd(Decimal, chars, i);
    var fraction := FractionEnd(chars, digits);
    assert a <= digits;
    if a == digits {
      assert b <= fraction;
      if b == fraction && Exponent(chars, b) {
        assert j <= ExponentEnd(chars, b);
      }
    }
  }

  /** The scan takes the longest numeral that stands there: `1.5e3` whole, and of `0..10` only the `0`. */
  lemma NumberIsLongest(chars: string, i: nat)
    requires i < |chars| && IsDigit(chars[i])
    ensures Numeral(chars, i, NumberEnd(chars, i))
    ensures forall j :: NumberEnd(chars, i) < j <= |chars| ==> !Numeral(chars, i, j)
  {
    if Radix(chars, i) {
      PrefixedEnds(chars, i, 0);
      forall j: nat | Numeral(chars, i, j) ensures j <= NumberEnd(chars, i) {
        PrefixedEnds(chars, i, j);
      }
    } else {
      PlainStands(chars, i);
      forall j: nat, a: nat, b: nat | j <= |chars| && PlainAt(chars, i, j, a, b) ensures j <= NumberEnd(chars, i) {
        PlainEnds(chars, i, j, a, b);
      }
    }
  }
}
