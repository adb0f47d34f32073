/** String and template literals: the escapes the formatter writes, the fused scan the lexer
    runs, and the two-phase unescape the compiler runs, against one another. */
module Literals {
  import opened Wrappers

  /** The character an escape stands for; an unknown escape stands for itself. */
  function EscapeChar(c: char): char {
    match c
    case 'n' => '\n'
    case 't' => '\t'
    case 'r' => '\r'
    case '0' => '\0'
    case _ => c
  }

  /** Inside a template two more characters may be escaped. */
  function TemplateChar(c: char): char {
    if c == '`' then '`' else if c == '$' then '$' else EscapeChar(c)
  }

  // ----- unescaping a body -----

  /** The text of a raw body; `letter` is what an escaped character stands for. A lone final
      backslash stands for itself. */
  function Unescape(letter: char -> char, body: string): string
    decreases |body|
  {
    if body == [] then []
    else if body[0] != '\\' then [body[0]] + Unescape(letter, body[1..])
    else if |body| == 1 then ['\\']
    else [letter(body[1])] + Unescape(letter, body[2..])
  }

  /** The same from an index on. */
  function UnescapeFrom(letter: char -> char, body: string, i: nat): string
    requires i <= |body|
    decreases |body| - i
  {
    if i == |body| then []
    else if body[i] != '\\' then [body[i]] + UnescapeFrom(letter, body, i + 1)
    else if i + 1 == |body| then ['\\']
    else [letter(body[i + 1])] + UnescapeFrom(letter, body, i + 2)
  }

  lemma {:induction false} FromIsRest(letter: char -> char, body: string, i: nat)
    requires i <= |body|
    ensures UnescapeFrom(letter, body, i) == Unescape(letter, body[i..])
    decreases |body| - i
  {
    if i < |body| {
      assert body[i..][1..] == body[i + 1..];
      FromIsRest(letter, body, i + 1);
      if i + 1 < |body| {
        assert body[i..][2..] == body[i + 2..];
        FromIsRest(letter, body, i + 2);
      }
    }
  }

  lemma Moved(out: string, c: char, rest: string)
    ensures out + [c] + rest == out + ([c] + rest)
  {
  }

  method UnescapeBody(letter: char -> char, body: string) returns (out: string)
    ensures out == Unescape(letter, body)
  {
    out := [];
    var i := 0;
    while i < |body|
      invariant 0 <= i <= |body|
      invariant out + UnescapeFrom(letter, body, i) == UnescapeFrom(letter, body, 0)
    {
      var c := body[i];
      i := i + 1;
      if c == '\\' {
        if i < |body| {
          Moved(out, letter(body[i]), UnescapeFrom(letter, body, i + 1));
          out := out + [letter(body[i])];
          i := i + 1;
        } else {
          Moved(out, '\\', []);
          out := out + ['\\'];
        }
      } else {
        Moved(out, c, UnescapeFrom(letter, body, i));
        out := out + [c];
      }
    }
    FromIsRest(letter, body, 0);
    assert body[0..] == body;
  }

  // ----- escaping a text -----

  function EscapeOne(c: char): string {
    match c
    case '\\' => "\\\\"
    case '"' => "\\\""
    case '\n' => "\\n"
    case '\t' => "\\t"
    case '\r' => "\\r"
    case '\0' => "\\0"
    case _ => [c]
  }

  function EscapeTemplateOne(c: char): string {
    match c
    case '\\' => "\\\\"
    case '`' => "\\`"
    case '$' => "\\$"
    case '\n' => "\\n"
    case '\t' => "\\t"
    case _ => [c]
  }

  function Escape(one: char -> string, s: string): string {
    if s == [] then [] else one(s[0]) + Escape(one, s[1..])
  }

  method EscapeLit(one: char -> string, s: string) returns (out: string)
    ensures out == Escape(one, s)
  {
    out := [];
    assert s[0..] == s;
    for i := 0 to |s|
      invariant out + Escape(one, s[i..]) == Escape(one, s)
    {
      assert s[i..][1..] == s[i + 1..];
      out := out + one(s[i]);
    }
  }

  lemma {:induction false} EscapedChars(one: char -> string, s: string, c: char)
    requires c in Escape(one, s)
    ensures exists k :: 0 <= k < |s| && c in one(s[k])
    decreases |s|
  {
    if c in one(s[0]) {
    } else {
      EscapedChars(one, s[1..], c);
      var k :| 0 <= k < |s[1..]| && c in one(s[1..][k]);
      assert s[k + 1] == s[1..][k];
    }
  }

  /** A printed literal stands on one line, and only the characters that need it are written
      otherwise than as themselves. */
  lemma PrintedOnOneLine(s: string, c: char)
    ensures '\n' !in Escape(EscapeOne, s) && '\r' !in Escape(EscapeOne, s) && '\n' !in Escape(EscapeTemplateOne, s)
    ensures EscapeOne(c) == [c] <==> c !in {'\\', '"', '\n', '\t', '\r', '\0'}
    ensures EscapeTemplateOne(c) == [c] <==> c !in {'\\', '`', '$', '\n', '\t'}
  {
    if '\n' in Escape(EscapeOne, s) { EscapedChars(EscapeOne, s, '\n'); }
    if '\r' in Escape(EscapeOne, s) { EscapedChars(EscapeOne, s, '\r'); }
    if '\n' in Escape(EscapeTemplateOne, s) { EscapedChars(EscapeTemplateOne, s, '\n'); }
  }

  // ----- the lexer's fused scans -----

  /** A quoted body from `i` on: its text and the index past the closing quote. */
  function ScanQuoted(chars: string, i: nat, quote: char): (r: Option<(string, nat)>)
    requires i <= |chars|
    ensures r.Some? ==> i < r.value.1 <= |chars| && chars[r.value.1 - 1] == quote
    decreases |chars| - i
  {
    if i == |chars| then None
    else if chars[i] == quote then Some(([], i + 1))
    else if chars[i] == '\\' && i + 1 < |chars| then Then(EscapeChar(chars[i + 1]), ScanQuoted(chars, i + 2, quote))
    else Then(chars[i], ScanQuoted(chars, i + 1, quote))
  }

  function Then<T>(c: char, r: Option<(string, T)>): Option<(string, T)> {
    match r
    case None => None
    case Some((s, j)) => Some(([c] + s, j))
  }

  /** How a template chunk ends: at the closing backquote, or at the opening of an interpolation. */
  datatype Chunk = Closed | Opens

  function ScanTemplate(chars: string, i: nat): (r: Option<(string, (Chunk, nat))>)
    requires i <= |chars|
    ensures r.Some? ==>
      var (kind, j) := r.value.1;
      && i < j <= |chars|
      && (kind == Closed ==> chars[j - 1] == '`')
      && (kind == Opens ==> i + 2 <= j && chars[j - 2] == '$' && chars[j - 1] == '{')
    decreases |chars| - i
  {
    if i == |chars| then None
    else if chars[i] == '`' then Some(([], (Closed, i + 1)))
    else if chars[i] == '$' && i + 1 < |chars| && chars[i + 1] == '{' then Some(([], (Opens, i + 2)))
    else if chars[i] == '\\' && i + 1 < |chars| then Then(TemplateChar(chars[i + 1]), ScanTemplate(chars, i + 2))
    else Then(chars[i], ScanTemplate(chars, i + 1))
  }

  function Prefixed<T>(text: string, r: Option<(string, T)>): Option<(string, T)> {
    match r
    case None => None
    case Some((s, j)) => Some((text + s, j))
  }

  method LexQuoted(chars: string, start: nat, quote: char) returns (r: Option<(string, nat)>)
    requires start <= |chars|
    ensures r == ScanQuoted(chars, start, quote)
  {
    var s: string := [];
    var i := start;
    PrefixedNothing(ScanQuoted(chars, start, quote));
    while i < |chars|
      invariant start <= i <= |chars|
      invariant ScanQuoted(chars, start, quote) == Prefixed(s, ScanQuoted(chars, i, quote))
    {
      var c := chars[i];
      if c == quote {
        assert s + [] == s;
        return Some((s, i + 1));
      }
      if c == '\\' && i + 1 < |chars| {
        i := i + 1;
        PrefixedThen(s, EscapeChar(chars[i]), ScanQuoted(chars, i + 1, quote));
        s := s + [EscapeChar(chars[i])];
        i := i + 1;
        continue;
      }
      PrefixedThen(s, c, ScanQuoted(chars, i + 1, quote));
      s := s + [c];
      i := i + 1;
    }
    return None;
  }

  method LexTemplateChunk(chars: string, start: nat) returns (r: Option<(string, (Chunk, nat))>)
    requires start <= |chars|
    ensures r == ScanTemplate(chars, start)
  {
    var text: string := [];
    var i := start;
    PrefixedNothing(ScanTemplate(chars, start));
    while i < |chars|
      invariant start <= i <= |chars|
      invariant ScanTemplate(chars, start) == Prefixed(text, ScanTemplate(chars, i))
    {
      var c := chars[i];
      if c == '`' {
        assert text + [] == text;
        return Some((text, (Closed, i + 1)));
      }
      if c == '$' && i + 1 < |chars| && chars[i + 1] == '{' {
        assert text + [] == text;
        return Some((text, (Opens, i + 2)));
      }
      if c == '\\' && i + 1 < |chars| {
        i := i + 1;
        PrefixedThen(text, TemplateChar(chars[i]), ScanTemplate(chars, i + 1));
        text := text + [TemplateChar(chars[i])];
        i := i + 1;
        continue;
      }
      PrefixedThen(text, c, ScanTemplate(chars, i + 1));
      text := text + [c];
      i := i + 1;
    }
    return None;
  }

  lemma PrefixedNothing<T>(r: Option<(string, T)>)
    ensures Prefixed([], r) == r
  {
    if r.Some? {
      assert [] + r.value.0 == r.value.0;
    }
  }

  lemma PrefixedThen<T>(s: string, c: char, r: Option<(string, T)>)
    ensures Prefixed(s, Then(c, r)) == Prefixed(s + [c], r)
  {
    if r.Some? {
      assert s + ([c] + r.value.0) == s + [c] + r.value.0;
    }
  }

  // ----- the fused scan and the two phases agree -----

  /** Wherever the fused scan stops, its text is what unescaping the raw body gives. */
  lemma {:induction false} QuotedTwoPhase(chars: string, i: nat, quote: char)
    requires i <= |chars| && quote != '\\' && ScanQuoted(chars, i, quote).Some?
    ensures var (s, j) := ScanQuoted(chars, i, quote).value;
            s == Unescape(EscapeChar, chars[i..j - 1])
    decreases |chars| - i
  {
    var (s, j) := ScanQuoted(chars, i, quote).value;
    if chars[i] != quote {
      var k := if chars[i] == '\\' && i + 1 < |chars| then i + 2 else i + 1;
      QuotedTwoPhase(chars, k, quote);
      var body := chars[i..j - 1];
      assert body[k - i..] == chars[k..j - 1];
      assert body[0] == chars[i] && (k == i + 2 ==> body[1] == chars[i + 1]);
    }
  }

  lemma {:induction false} TemplateTwoPhase(chars: string, i: nat)
    requires i <= |chars| && ScanTemplate(chars, i).Some?
    ensures var (s, (kind, j)) := ScanTemplate(chars, i).value;
            s == Unescape(TemplateChar, chars[i..if kind == Closed then j - 1 else j - 2])
    decreases |chars| - i
  {
    var (s, (kind, j)) := ScanTemplate(chars, i).value;
    var end := if kind == Closed then j - 1 else j - 2;
    if chars[i] != '`' && !(chars[i] == '$' && i + 1 < |chars| && chars[i + 1] == '{') {
      var k := if chars[i] == '\\' && i + 1 < |chars| then i + 2 else i + 1;
      TemplateTwoPhase(chars, k);
      var body := chars[i..end];
      assert body[k - i..] == chars[k..end];
      assert body[0] == chars[i] && (k == i + 2 ==> body[1] == chars[i + 1]);
    }
  }

  // ----- what the formatter escapes, the lexer reads back -----

  /** `one` writes `c` so that a scan that ends at `stop` and reads escapes by `letter` gets it
      back: as itself when it means nothing special, else as a backslash and a letter for it. */
  ghost predicate Reversible(one: char -> string, letter: char -> char, stops: set<char>, c: char) {
    || (one(c) == [c] && c != '\\' && c !in stops)
    || (|one(c)| == 2 && one(c)[0] == '\\' && letter(one(c)[1]) == c)
  }

  lemma EscapesReversible(c: char)
    ensures Reversible(EscapeOne, EscapeChar, {'"'}, c)
    ensures Reversible(EscapeTemplateOne, TemplateChar, {'`', '$'}, c)
  {
  }

  /** `chars` from `i` to `j` is `s` as `one` writes it. */
  ghost predicate Spells(one: char -> string, chars: string, i: nat, s: string, j: nat)
    decreases |s|
  {
    if s == [] then i == j
    else
      var k := i + |one(s[0])|;
      k <= |chars| && chars[i..k] == one(s[0]) && Spells(one, chars, k, s[1..], j)
  }

  lemma CutAt(chars: string, i: nat, e: string, more: string, end: string)
    requires i <= |chars| && chars[i..] == e + more + end
    ensures i + |e| <= |chars| && chars[i..i + |e|] == e && chars[i + |e|..] == more + end
  {
    assert e + more + end == e + (more + end);
    assert chars[i..i + |e|] == chars[i..][..|e|];
    assert chars[i + |e|..] == chars[i..][|e|..];
  }

  lemma {:induction false} EscapeSpells(one: char -> string, chars: string, i: nat, s: string, end: string)
    requires i <= |chars| && chars[i..] == Escape(one, s) + end
    ensures Spells(one, chars, i, s, i + |Escape(one, s)|)
    decreases |s|
  {
    if s != [] {
      CutAt(chars, i, one(s[0]), Escape(one, s[1..]), end);
      EscapeSpells(one, chars, i + |one(s[0])|, s[1..], end);
    }
  }

  /** One written character, scanned. */
  lemma QuotedOne(one: char -> string, chars: string, i: nat, c: char, quote: char)
    requires quote != '\\' && Reversible(one, EscapeChar, {quote}, c)
    requires i + |one(c)| <= |chars| && chars[i..i + |one(c)|] == one(c)
    ensures ScanQuoted(chars, i, quote) == Then(c, ScanQuoted(chars, i + |one(c)|, quote))
  {
    var e := one(c);
    assert chars[i] == chars[i..i + |e|][0] && (|e| == 2 ==> chars[i + 1] == chars[i..i + |e|][1]);
  }

  lemma {:induction false} QuotedScans(one: char -> string, chars: string, i: nat, s: string, quote: char, j: nat)
    requires quote != '\\' && forall c :: Reversible(one, EscapeChar, {quote}, c)
    requires i <= |chars| && Spells(one, chars, i, s, j) && j < |chars| && chars[j] == quote
    ensures ScanQuoted(chars, i, quote) == Some((s, j + 1))
    decreases |s|
  {
    if s != [] {
      assert Reversible(one, EscapeChar, {quote}, s[0]);
      QuotedOne(one, chars, i, s[0], quote);
      QuotedScans(one, chars, i + |one(s[0])|, s[1..], quote, j);
      assert s == [s[0]] + s[1..];
    }
  }

  /** Printing any text as a double-quoted literal and lexing it, whatever follows, returns the
      text and stops just past the closing quote. */
  lemma QuotedRoundTrip(chars: string, i: nat, s: string, tail: string)
    requires i <= |chars| && chars[i..] == Escape(EscapeOne, s) + (['"'] + tail)
    ensures ScanQuoted(chars, i, '"') == Some((s, i + |Escape(EscapeOne, s)| + 1))
  {
    AllReversible();
    QuotedReads(EscapeOne, chars, i, s, '"', ['"'] + tail);
  }

  lemma AllReversible()
    ensures forall c :: Reversible(EscapeOne, EscapeChar, {'"'}, c)
    ensures forall c :: Reversible(EscapeTemplateOne, TemplateChar, {'`', '$'}, c)
  {
    forall c ensures Reversible(EscapeOne, EscapeChar, {'"'}, c) { EscapesReversible(c); }
    forall c ensures Reversible(EscapeTemplateOne, TemplateChar, {'`', '$'}, c) { EscapesReversible(c); }
  }

  lemma QuotedReads(one: char -> string, chars: string, i: nat, s: string, quote: char, end: string)
    requires quote != '\\' && forall c :: Reversible(one, EscapeChar, {quote}, c)
    requires i <= |chars| && chars[i..] == Escape(one, s) + end && end != [] && end[0] == quote
    ensures ScanQuoted(chars, i, quote) == Some((s, i + |Escape(one, s)| + 1))
  {
    var j := i + |Escape(one, s)|;
    assert chars[j] == chars[i..][j - i];
    EscapeSpells(one, chars, i, s, end);
    QuotedScans(one, chars, i, s, quote, j);
  }

  lemma {:induction false} TemplateScans(one: char -> string, chars: string, i: nat, s: string, j: nat)
    requires forall c :: Reversible(one, TemplateChar, {'`', '$'}, c)
    requires i <= |chars| && j <= |chars| && Spells(one, chars, i, s, j)
    ensures ScanTemplate(chars, i) == Prefixed(s, ScanTemplate(chars, j))
    decreases |s|
  {
    if s == [] {
      PrefixedNothing(ScanTemplate(chars, i));
    } else {
      TemplateScans(one, chars, i + |one(s[0])|, s[1..], j);
      TemplateOne(one, chars, i, s[0]);
      ThenPrefixed(s, ScanTemplate(chars, j));
    }
  }

  /** One written character, scanned. */
  lemma TemplateOne(one: char -> string, chars: string, i: nat, c: char)
    requires Reversible(one, TemplateChar, {'`', '$'}, c)
    requires i + |one(c)| <= |chars| && chars[i..i + |one(c)|] == one(c)
    ensures ScanTemplate(chars, i) == Then(c, ScanTemplate(chars, i + |one(c)|))
  {
    var e := one(c);
    assert chars[i] == chars[i..i + |e|][0] && (|e| == 2 ==> chars[i + 1] == chars[i..i + |e|][1]);
  }

  lemma ThenPrefixed<T>(s: string, r: Option<(string, T)>)
    requires s != []
    ensures Then(s[0], Prefixed(s[1..], r)) == Prefixed(s, r)
  {
    if r.Some? {
      assert [s[0]] + (s[1..] + r.value.0) == s + r.value.0;
    }
  }

  /** Printed template text reads back as itself, both before the closing backquote and before an
      interpolation: whatever it contains, it neither ends the template nor opens one. */
  lemma TemplateRoundTrip(chars: string, i: nat, s: string, end: string)
    requires i <= |chars| && chars[i..] == Escape(EscapeTemplateOne, s) + end
    requires end != [] && (end[0] == '`' || (|end| > 1 && end[0] == '$' && end[1] == '{'))
    ensures var j := i + |Escape(EscapeTemplateOne, s)|;
            ScanTemplate(chars, i) == Some((s, if end[0] == '`' then (Closed, j + 1) else (Opens, j + 2)))
  {
    AllReversible();
    TemplateReads(EscapeTemplateOne, chars, i, s, end);
  }

  lemma TemplateReads(one: char -> string, chars: string, i: nat, s: string, end: string)
    requires forall c :: Reversible(one, TemplateChar, {'`', '$'}, c)
    requires i <= |chars| && chars[i..] == Escape(one, s) + end
    requires end != [] && (end[0] == '`' || (|end| > 1 && end[0] == '$' && end[1] == '{'))
    ensures var j := i + |Escape(one, s)|;
            ScanTemplate(chars, i) == Some((s, if end[0] == '`' then (Closed, j + 1) else (Opens, j + 2)))
  {
    EscapeSpells(one, chars, i, s, end);
    var j := i + |Escape(one, s)|;
    TemplateScans(one, chars, i, s, j);
    assert chars[j] == chars[i..][j - i] && (|end| > 1 ==> chars[j + 1] == chars[i..][j - i + 1]);
    TemplateEnds(chars, j, s);
  }

  lemma TemplateEnds(chars: string, j: nat, s: string)
    requires j < |chars| && (chars[j] == '`' || (j + 1 < |chars| && chars[j] == '$' && chars[j + 1] == '{'))
    ensures Prefixed(s, ScanTemplate(chars, j)) == Some((s, if chars[j] == '`' then (Closed, j + 1) else (Opens, j + 2)))
  {
    assert s + [] == s;
  }
}
