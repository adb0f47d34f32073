/** Where a literal ends and what its escapes mean, told without the scan: at the first terminator with an even
    number of backslashes before it. */
module LiteralEnds {
  import opened Wrappers
  import opened Literals

  /** The backslashes that stand together right before `k`, back to `i` at most. */
  function SlashesBefore(chars: string, i: nat, k: nat): nat
    requires i <= k <= |chars|
  {
    if k == i || chars[k - 1] != '\\' then 0 else 1 + SlashesBefore(chars, i, k - 1)
  }

  predicate Escaped(chars: string, i: nat, k: nat)
    requires i <= k <= |chars|
  {
    SlashesBefore(chars, i, k) % 2 == 1
  }

  /** Starting later, past a character that is no backslash or past an escape, changes nothing. */
  lemma {:induction false} EscapedSince(chars: string, i: nat, from: nat, k: nat)
    requires i < from <= k <= |chars|
    requires (from == i + 1 && chars[i] != '\\') || (from == i + 2 && chars[i] == '\\')
    ensures Escaped(chars, i, k) <==> Escaped(chars, from, k)
    decreases k
  {
    if k > from && chars[k - 1] == '\\' {
      EscapedSince(chars, i, from, k - 1);
    } else if k == from == i + 2 {
      assert SlashesBefore(chars, i, i) == 0 && SlashesBefore(chars, i, i + 1) == 1;
    }
  }

  predicate EndsQuoted(chars: string, quote: char, k: nat) {
    k < |chars| && chars[k] == quote
  }

  predicate EndsTemplate(chars: string, k: nat) {
    k < |chars| && (chars[k] == '`' || (chars[k] == '$' && k + 1 < |chars| && chars[k + 1] == '{'))
  }

  /** The literal that begins at `i` ends at `k`: the first of the places in `ends` that is not escaped. */
  ghost predicate EndsAt(ends: nat -> bool, chars: string, i: nat, k: nat)
    requires i <= k <= |chars|
  {
    ends(k) && !Escaped(chars, i, k) && forall m :: i <= m < k && ends(m) ==> Escaped(chars, i, m)
  }

  ghost predicate NeverEnds(ends: nat -> bool, chars: string, i: nat)
    requires i <= |chars|
  {
    forall m :: i <= m <= |chars| && ends(m) ==> Escaped(chars, i, m)
  }

  /** A step over a character, or over an escape, that ends nothing. */
  lemma Later(ends: nat -> bool, chars: string, i: nat, from: nat)
    requires i < from <= |chars| && !ends(i)
    requires (from == i + 1 && chars[i] != '\\') || (from == i + 2 && chars[i] == '\\')
    ensures NeverEnds(ends, chars, i) <==> NeverEnds(ends, chars, from)
    ensures forall k :: from <= k <= |chars| ==> (EndsAt(ends, chars, i, k) <==> EndsAt(ends, chars, from, k))
  {
    forall k | from <= k <= |chars| ensures Escaped(chars, i, k) <==> Escaped(chars, from, k) {
      EscapedSince(chars, i, from, k);
    }
    assert from == i + 2 ==> Escaped(chars, i, i + 1);
  }

  /** A quoted literal ends at the first quote that is not escaped, and is unterminated when there is none. */
  lemma {:induction false} QuotedEnds(chars: string, i: nat, quote: char)
    requires i <= |chars| && quote != '\\'
    ensures var ends := (k: nat) => EndsQuoted(chars, quote, k);
      match ScanQuoted(chars, i, quote)
      case None => NeverEnds(ends, chars, i)
      case Some((_, j)) => i < j <= |chars| && EndsAt(ends, chars, i, j - 1)
    decreases |chars| - i
  {
    var ends := (k: nat) => EndsQuoted(chars, quote, k);
    if i < |chars| && chars[i] != quote && (chars[i] != '\\' || i + 1 < |chars|) {
      var from := if chars[i] == '\\' then i + 2 else i + 1;
      QuotedEnds(chars, from, quote);
      Later(ends, chars, i, from);
    } else if i + 1 == |chars| && chars[i] == '\\' {
      assert ScanQuoted(chars, i + 1, quote).None?;
    }
  }

  /** Template text ends at the first backquote or opening of an interpolation that is not escaped. */
  lemma {:induction false} TemplateEnds(chars: string, i: nat)
    requires i <= |chars|
    ensures var ends := (k: nat) => EndsTemplate(chars, k);
      match ScanTemplate(chars, i)
      case None => NeverEnds(ends, chars, i)
      case Some((_, (Closed, j))) => i < j <= |chars| && EndsAt(ends, chars, i, j - 1) && chars[j - 1] == '`'
      case Some((_, (Opens, j))) => i + 1 < j <= |chars| && EndsAt(ends, chars, i, j - 2) && chars[j - 2] == '$'
    decreases |chars| - i
  {
    var ends := (k: nat) => EndsTemplate(chars, k);
    if i < |chars| && !ends(i) && (chars[i] != '\\' || i + 1 < |chars|) {
      var from := if chars[i] == '\\' then i + 2 else i + 1;
      TemplateEnds(chars, from);
      Later(ends, chars, i, from);
    } else if i + 1 == |chars| && chars[i] == '\\' {
      assert ScanTemplate(chars, i + 1).None?;
    }
  }

  /** What an escape letter stands for: `n` a line feed, `t` a tab, `r` a carriage return, `0` the null character,
      and any other character itself. */
  lemma LettersMean(c: char)
    ensures EscapeChar(c) as int == (if c == 'n' then 10 else if c == 't' then 9 else if c == 'r' then 13 else if c == '0' then 0
                                     else c as int)
    ensures TemplateChar(c) == EscapeChar(c)
  {
  }
}
