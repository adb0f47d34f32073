/** The lexer: one pass over the characters, with a stack of open template interpolations. */
module Lexer {
  import opened Wrappers
  import opened Literals

  datatype Num = IntLit(i: int) | FloatLit(f: real)

  /** Operators and brackets other than braces are known by their spelling, keywords by their word. */
  datatype Tok =
    | Punct(spelling: string)
    | LBrace
    | HashBrace
    | RBrace
    | Keyword(word: string)
    | Ident(name: string)
    | Number(num: Num)
    | Str(text: string)
    | TemplateStr(text: string)
    | TemplateStart(text: string)
    | TemplateMiddle(text: string)
    | TemplateEnd(text: string)
    | Eof

  datatype Token = Token(tok: Tok, start: nat, end: nat)

  datatype Error =
    | UnterminatedString
    | UnterminatedTemplate
    | UnterminatedComment
    | BareHash
    | BadNumber
    | Unexpected(c: char)

  datatype LexResult = Lexed(tokens: seq<Token>) | Failed(error: Error, start: nat, end: nat)

  /** The Unicode character classes, the value of a number's text and the reserved words. */
  datatype Classes = Classes(
    whitespace: char -> bool,
    alphabetic: char -> bool,
    alphanumeric: char -> bool,
    number: string -> Option<Num>,
    keywords: set<string>)
  {
    ghost predicate Valid() {
      forall c :: alphabetic(c) ==> alphanumeric(c)
    }

    predicate StartsWord(c: char) {
      alphabetic(c) || c == '_'
    }

    predicate InWord(c: char) {
      alphanumeric(c) || c == '_'
    }
  }

  const KEYWORDS: set<string> := {
    "true", "false", "nil", "let", "const", "if", "else", "while", "for", "in", "of", "instanceof",
    "return", "break", "continue", "fn", "enum", "match", "class", "interface", "defer", "import",
    "export", "async", "await", "yield"
  }

  /** The language's own reserved words, with whatever Unicode tables and number parser. */
  function AScript(whitespace: char -> bool, alphabetic: char -> bool, alphanumeric: char -> bool,
      number: string -> Option<Num>): Classes {
    Classes(whitespace, alphabetic, alphanumeric, number, KEYWORDS)
  }

  predicate IsDigit(c: char) {
    '0' <= c <= '9'
  }

  predicate IsHexDigit(c: char) {
    IsDigit(c) || 'a' <= c <= 'f' || 'A' <= c <= 'F'
  }

  // ----- operators: the spellings that start with a character, and the branches that pick one -----

  predicate One(c: char) {
    match c
    case '+' | '-' | '*' | '!' | '=' | '<' | '>' | '&' | '^' | '~' | '|' | '?' | '/' | '.' | '%' => true
    case '(' | ')' | ',' | ';' | ':' | '[' | ']' => true
    case _ => false
  }

  predicate Two(c: char, d: char) {
    match c
    case '+' | '-' => d == '=' || d == '%'
    case '*' => d == '*' || d == '=' || d == '%'
    case '!' | '/' => d == '='
    case '=' => d == '=' || d == '>'
    case '<' => d == '=' || d == '<'
    case '>' => d == '=' || d == '>'
    case '&' => d == '&'
    case '|' => d == '|'
    case '?' => d == '?' || d == '.'
    case '.' => d == '.'
    case _ => false
  }

  /** The operators of the language, and the brackets other than braces. */
  predicate Spelling(s: string) {
    || (|s| == 1 && One(s[0]))
    || (|s| == 2 && Two(s[0], s[1]))
    || (|s| == 3 && s[0] == '.' && s[1] == '.' && (s[2] == '.' || s[2] == '='))
  }

  predicate At(chars: string, i: nat, c: char) {
    i < |chars| && chars[i] == c
  }

  /** `s` stands in `chars` at `i`. */
  predicate StandsAt(chars: string, i: nat, s: string) {
    i + |s| <= |chars| && chars[i..i + |s|] == s
  }

  function Operator(chars: string, i: nat): Option<string>
    requires i < |chars|
  {
    match chars[i]
    case '+' => Some(if At(chars, i + 1, '=') then "+=" else if At(chars, i + 1, '%') then "+%" else "+")
    case '-' => Some(if At(chars, i + 1, '=') then "-=" else if At(chars, i + 1, '%') then "-%" else "-")
    case '*' =>
      Some(if At(chars, i + 1, '*') then "**" else if At(chars, i + 1, '=') then "*="
           else if At(chars, i + 1, '%') then "*%" else "*")
    case '!' => Some(if At(chars, i + 1, '=') then "!=" else "!")
    case '=' => Some(if At(chars, i + 1, '=') then "==" else if At(chars, i + 1, '>') then "=>" else "=")
    case '<' => Some(if At(chars, i + 1, '=') then "<=" else if At(chars, i + 1, '<') then "<<" else "<")
    case '>' => Some(if At(chars, i + 1, '=') then ">=" else if At(chars, i + 1, '>') then ">>" else ">")
    case '&' => Some(if At(chars, i + 1, '&') then "&&" else "&")
    case '^' => Some("^")
    case '~' => Some("~")
    case '|' => Some(if At(chars, i + 1, '|') then "||" else "|")
    case '?' => Some(if At(chars, i + 1, '?') then "??" else if At(chars, i + 1, '.') then "?." else "?")
    case '/' => Some(if At(chars, i + 1, '=') then "/=" else "/")
    case '.' =>
      Some(if At(chars, i + 1, '.') && At(chars, i + 2, '.') then "..."
           else if At(chars, i + 1, '.') && At(chars, i + 2, '=') then "..="
           else if At(chars, i + 1, '.') then ".." else ".")
    case '%' => Some("%")
    case '(' => Some("(")
    case ')' => Some(")")
    case ',' => Some(",")
    case ';' => Some(";")
    case ':' => Some(":")
    case '[' => Some("[")
    case ']' => Some("]")
    case _ => None
  }

  /** `s` is an operator standing at `i`, and no longer one stands there. */
  ghost predicate Longest(chars: string, i: nat, s: string) {
    && Spelling(s) && StandsAt(chars, i, s)
    && forall p :: Spelling(p) && StandsAt(chars, i, p) ==> |p| <= |s|
  }

  lemma StandsChars(chars: string, i: nat, s: string)
    requires 1 <= |s| <= 3
    ensures StandsAt(chars, i, s) <==>
      At(chars, i, s[0]) && (|s| >= 2 ==> At(chars, i + 1, s[1])) && (|s| == 3 ==> At(chars, i + 2, s[2]))
  {
    if StandsAt(chars, i, s) {
      assert chars[i] == chars[i..i + |s|][0];
      assert |s| >= 2 ==> chars[i + 1] == chars[i..i + |s|][1];
      assert |s| == 3 ==> chars[i + 2] == chars[i..i + |s|][2];
    }
  }

  predicate TwoAt(chars: string, i: nat) {
    i + 1 < |chars| && Two(chars[i], chars[i + 1])
  }

  predicate ThreeAt(chars: string, i: nat) {
    At(chars, i, '.') && At(chars, i + 1, '.') && (At(chars, i + 2, '.') || At(chars, i + 2, '='))
  }

  lemma OperatorStands(chars: string, i: nat)
    requires i < |chars| && Operator(chars, i).Some?
    ensures var s := Operator(chars, i).value;
      && Spelling(s) && At(chars, i, s[0]) && (|s| >= 2 ==> At(chars, i + 1, s[1])) && (|s| == 3 ==> At(chars, i + 2, s[2]))
  {
  }

  lemma OperatorIsGreedy(chars: string, i: nat)
    requires i < |chars| && Operator(chars, i).Some?
    ensures var s := Operator(chars, i).value; (|s| < 2 ==> !TwoAt(chars, i)) && (|s| < 3 ==> !ThreeAt(chars, i))
  {
  }

  lemma GreedyIsLongest(chars: string, i: nat, s: string)
    requires Spelling(s) && StandsAt(chars, i, s) && (|s| < 2 ==> !TwoAt(chars, i)) && (|s| < 3 ==> !ThreeAt(chars, i))
    ensures Longest(chars, i, s)
  {
    forall p | Spelling(p) && StandsAt(chars, i, p) ensures |p| <= |s| {
      StandsChars(chars, i, p);
    }
  }

  /** The branches take the longest operator. */
  lemma OperatorIsLongest(chars: string, i: nat)
    requires i < |chars| && Operator(chars, i).Some?
    ensures Longest(chars, i, Operator(chars, i).value)
  {
    OperatorStands(chars, i);
    OperatorIsGreedy(chars, i);
    StandsChars(chars, i, Operator(chars, i).value);
    GreedyIsLongest(chars, i, Operator(chars, i).value);
  }

  // ----- runs of characters: words, numbers, comments -----

  /** Where the run of characters satisfying `p` that starts at `i` ends. */
  function RunEnd(p: char -> bool, chars: string, i: nat): (j: nat)
    requires i <= |chars|
    ensures i <= j <= |chars| && (forall k :: i <= k < j ==> p(chars[k])) && (j < |chars| ==> !p(chars[j]))
    decreases |chars| - i
  {
    if i < |chars| && p(chars[i]) then RunEnd(p, chars, i + 1) else i
  }

  method SkipRun(p: char -> bool, chars: string, i: nat) returns (j: nat)
    requires i <= |chars|
    ensures j == RunEnd(p, chars, i)
  {
    j := i;
    while j < |chars| && p(chars[j])
      invariant i <= j <= |chars| && RunEnd(p, chars, j) == RunEnd(p, chars, i)
    {
      j := j + 1;
    }
  }

  predicate NotNewline(c: char) {
    c != '\n'
  }

  predicate Decimal(c: char) {
    IsDigit(c) || c == '_'
  }

  predicate Hexadecimal(c: char) {
    IsHexDigit(c) || c == '_'
  }

  /** Just past the first close of a block comment at or after `i`. */
  function BlockEnd(chars: string, i: nat): (r: Option<nat>)
    ensures r.Some? ==>
      && i + 2 <= r.value <= |chars| && Closes(chars, r.value - 2)
      && forall k :: i <= k < r.value - 2 ==> !Closes(chars, k)
    ensures r.None? ==> forall k :: i <= k ==> !Closes(chars, k)
    decreases |chars| - i
  {
    if i + 1 >= |chars| then None
    else if Closes(chars, i) then Some(i + 2)
    else BlockEnd(chars, i + 1)
  }

  predicate Closes(chars: string, k: nat) {
    At(chars, k, '*') && At(chars, k + 1, '/')
  }

  /** The scan for the close, with the index it stops at when there is none. */
  method SkipBlock(chars: string, start: nat) returns (closed: bool, i: nat)
    requires start <= |chars|
    ensures closed == BlockEnd(chars, start).Some?
    ensures i == if closed then BlockEnd(chars, start).value else if start < |chars| then |chars| - 1 else start
  {
    i := start;
    while i + 1 < |chars|
      invariant start <= i && (start < |chars| ==> i < |chars|) && (start == |chars| ==> i == start)
      invariant BlockEnd(chars, i) == BlockEnd(chars, start)
    {
      if chars[i] == '*' && chars[i + 1] == '/' {
        return true, i + 2;
      }
      i := i + 1;
    }
    return false, i;
  }

  predicate RadixLetter(c: char) {
    HexLetter(c) || c == 'b' || c == 'B' || c == 'o' || c == 'O'
  }

  predicate HexLetter(c: char) {
    c == 'x' || c == 'X'
  }

  predicate ExponentLetter(c: char) {
    c == 'e' || c == 'E'
  }

  predicate Radix(chars: string, i: nat) {
    At(chars, i, '0') && i + 1 < |chars| && RadixLetter(chars[i + 1])
  }

  predicate DigitAt(chars: string, i: nat) {
    i < |chars| && IsDigit(chars[i])
  }

  predicate SignAt(chars: string, i: nat) {
    i < |chars| && (chars[i] == '+' || chars[i] == '-')
  }

  /** An exponent starts here: its letter, an optional sign and at least one digit. */
  predicate Exponent(chars: string, j: nat) {
    && j < |chars| && ExponentLetter(chars[j])
    && (DigitAt(chars, j + 1) || (SignAt(chars, j + 1) && DigitAt(chars, j + 2)))
  }

  function FractionEnd(chars: string, j: nat): (k: nat)
    requires j <= |chars|
    ensures j <= k <= |chars|
  {
    if At(chars, j, '.') && DigitAt(chars, j + 1) then RunEnd(Decimal, chars, j + 1) else j
  }

  function ExponentEnd(chars: string, j: nat): (k: nat)
    requires j <= |chars|
    ensures j <= k <= |chars|
  {
    if Exponent(chars, j)
    then RunEnd(IsDigit, chars, if SignAt(chars, j + 1) then j + 2 else j + 1)
    else j
  }

  /** Where the number that starts at `i` ends. A prefix `0x`, `0b` or `0o` takes every digit that
      follows, in range or not; a point belongs to the number only before a digit. */
  function NumberEnd(chars: string, i: nat): (j: nat)
    requires i < |chars| && IsDigit(chars[i])
    ensures i < j <= |chars|
  {
    if Radix(chars, i)
    then RunEnd(if HexLetter(chars[i + 1]) then Hexadecimal else Decimal, chars, i + 2)
    else ExponentEnd(chars, FractionEnd(chars, RunEnd(Decimal, chars, i)))
  }

  method SkipFraction(chars: string, i: nat) returns (j: nat)
    requires i <= |chars|
    ensures j == FractionEnd(chars, i)
  {
    j := i;
    if At(chars, j, '.') && DigitAt(chars, j + 1) {
      j := SkipRun(Decimal, chars, j + 1);
    }
  }

  method SkipExponent(chars: string, i: nat) returns (j: nat)
    requires i <= |chars|
    ensures j == ExponentEnd(chars, i)
  {
    j := i;
    if j < |chars| && ExponentLetter(chars[j]) {
      var after := j + 1;
      var ok := DigitAt(chars, after) || (SignAt(chars, after) && DigitAt(chars, after + 1));
      if ok {
        j := j + 1;
        if SignAt(chars, j) {
          j := j + 1;
        }
        j := SkipRun(IsDigit, chars, j);
      }
    }
  }

  method ScanNumber(chars: string, i: nat) returns (j: nat)
    requires i < |chars| && IsDigit(chars[i])
    ensures j == NumberEnd(chars, i)
  {
    if Radix(chars, i) {
      j := SkipRun(if HexLetter(chars[i + 1]) then Hexadecimal else Decimal, chars, i + 2);
    } else {
      j := SkipRun(Decimal, chars, i);
      j := SkipFraction(chars, j);
      j := SkipExponent(chars, j);
    }
  }

  // ----- what a piece of the input may be -----

  /** What is open at a point: a brace, or the interpolation of a template. The last is innermost. */
  datatype Frame = Brace | Template

  /** The input is cut into pieces: single white spaces, comments and tokens. */
  datatype Piece = Space(start: nat, end: nat) | Comment(start: nat, end: nat) | Lexeme(token: Token, start: nat, end: nat)

  predicate InTemplate(frames: seq<Frame>) {
    frames != [] && frames[|frames| - 1] == Template
  }

  predicate StartsComment(chars: string, i: nat) {
    At(chars, i, '/') && (At(chars, i + 1, '/') || At(chars, i + 1, '*'))
  }

  function CommentEnd(chars: string, i: nat): (r: Option<nat>)
    requires StartsComment(chars, i)
    ensures r.Some? ==> i < r.value <= |chars|
  {
    if At(chars, i + 1, '/') then Some(RunEnd(NotNewline, chars, i + 2)) else BlockEnd(chars, i + 2)
  }

  predicate Quote(c: char) {
    c == '"' || c == '\''
  }

  /** Characters whose meaning does not depend on the Unicode classes. */
  predicate Special(c: char) {
    One(c) || c == '#' || c == '{' || c == '}' || Quote(c) || c == '`' || IsDigit(c)
  }

  /** A template's text continues here: at a backquote, or at the brace that closes the innermost
      interpolation. */
  predicate TemplateText(frames: seq<Frame>, c: char) {
    c == '`' || (c == '}' && InTemplate(frames))
  }

  function ChunkTok(opening: bool, text: string, kind: Chunk): Tok {
    match kind
    case Closed => if opening then TemplateStr(text) else TemplateEnd(text)
    case Opens => if opening then TemplateStart(text) else TemplateMiddle(text)
  }

  /** `tok` is what stands from `i` to `end` when `frames` are open. */
  ghost predicate Spelled(cfg: Classes, chars: string, frames: seq<Frame>, tok: Tok, i: nat, end: nat)
    requires i < end <= |chars|
  {
    var c := chars[i];
    match tok
    case Punct(s) => Longest(chars, i, s) && end == i + |s|
    case LBrace => c == '{' && end == i + 1
    case HashBrace => c == '#' && At(chars, i + 1, '{') && end == i + 2
    case RBrace => c == '}' && !InTemplate(frames) && end == i + 1
    case Number(n) => IsDigit(c) && end == NumberEnd(chars, i) && cfg.number(chars[i..end]) == Some(n)
    case Str(s) => Quote(c) && ScanQuoted(chars, i + 1, c) == Some((s, end))
    case Keyword(w) => Word(cfg, chars, i, end) && w == chars[i..end] && w in cfg.keywords
    case Ident(w) => Word(cfg, chars, i, end) && w == chars[i..end] && w !in cfg.keywords
    case Eof => false
    case _ =>
      && TemplateText(frames, c)
      && match ScanTemplate(chars, i + 1)
         case None => false
         case Some((text, (kind, j))) => j == end && tok == ChunkTok(c == '`', text, kind)
  }

  ghost predicate Word(cfg: Classes, chars: string, i: nat, end: nat)
    requires i < |chars|
  {
    !Special(chars[i]) && cfg.StartsWord(chars[i]) && end == RunEnd(c => cfg.InWord(c), chars, i)
  }

  ghost predicate Fits(cfg: Classes, chars: string, frames: seq<Frame>, p: Piece) {
    && p.start < p.end <= |chars|
    && cfg.whitespace(chars[p.start]) == p.Space?
    && match p
       case Space(i, end) => end == i + 1
       case Comment(i, end) => StartsComment(chars, i) && CommentEnd(chars, i) == Some(end)
       case Lexeme(t, i, end) =>
         t.start == i && t.end == end && !StartsComment(chars, i) && Spelled(cfg, chars, frames, t.tok, i, end)
  }

  /** The frames open after a piece. A closing brace with nothing to close is let through. */
  function After(frames: seq<Frame>, p: Piece): seq<Frame> {
    if !p.Lexeme? then frames
    else match p.token.tok
      case LBrace => frames + [Brace]
      case HashBrace => frames + [Brace]
      case RBrace => Popped(frames)
      case TemplateStart(_) => frames + [Template]
      case TemplateEnd(_) => Popped(frames)
      case _ => frames
  }

  function Popped(frames: seq<Frame>): seq<Frame> {
    if frames == [] then [] else frames[..|frames| - 1]
  }

  /** Why nothing can stand at `i`, and the span the error is reported at. */
  ghost predicate Stuck(cfg: Classes, chars: string, frames: seq<Frame>, e: Error, i: nat, end: nat) {
    && i < |chars| && !cfg.whitespace(chars[i])
    && var c := chars[i];
       match e
       case UnterminatedString => Quote(c) && ScanQuoted(chars, i + 1, c).None? && end == |chars|
       case UnterminatedTemplate => TemplateText(frames, c) && ScanTemplate(chars, i + 1).None? && end == |chars|
       case UnterminatedComment =>
         && StartsComment(chars, i) && CommentEnd(chars, i).None?
         && end == (if i + 2 < |chars| then |chars| - 1 else i + 2)
       case BareHash => c == '#' && !At(chars, i + 1, '{') && end == i + 1
       case BadNumber => IsDigit(c) && end == NumberEnd(chars, i) && cfg.number(chars[i..end]).None?
       case Unexpected(u) => u == c && !Special(c) && !cfg.StartsWord(c) && end == i + 1
  }

  // ----- the lexer's own counters stand for the frames -----

  function Braces(frames: seq<Frame>): nat {
    if frames == [] then 0
    else Braces(Popped(frames)) + if frames[|frames| - 1] == Brace then 1 else 0
  }

  /** For each open interpolation, how many braces are open outside it. */
  function Depths(frames: seq<Frame>): seq<nat> {
    if frames == [] then []
    else Depths(Popped(frames)) + if frames[|frames| - 1] == Template then [Braces(Popped(frames))] else []
  }

  ghost predicate Counts(frames: seq<Frame>, depth: nat, stack: seq<nat>) {
    depth == Braces(frames) && stack == Depths(frames)
  }

  lemma CountsPush(frames: seq<Frame>, f: Frame)
    ensures Popped(frames + [f]) == frames
    ensures Braces(frames + [f]) == Braces(frames) + (if f == Brace then 1 else 0)
    ensures Depths(frames + [f]) == Depths(frames) + if f == Template then [Braces(frames)] else []
  {
    assert (frames + [f])[..|frames|] == frames;
  }

  lemma {:induction false} DepthsBounded(frames: seq<Frame>)
    ensures forall k :: 0 <= k < |Depths(frames)| ==> Depths(frames)[k] <= Braces(frames)
    ensures forall j, k :: 0 <= j <= k < |Depths(frames)| ==> Depths(frames)[j] <= Depths(frames)[k]
  {
    if frames != [] {
      DepthsBounded(Popped(frames));
    }
  }

  /** The lexer's test for a brace that closes an interpolation asks about the innermost frame. */
  lemma {:induction false} TestIsInTemplate(frames: seq<Frame>)
    ensures InTemplate(frames) <==> Depths(frames) != [] && Depths(frames)[|Depths(frames)| - 1] == Braces(frames)
  {
    if frames != [] && frames[|frames| - 1] == Brace {
      DepthsBounded(Popped(frames));
    }
  }

  // ----- one turn of the lexer's loop -----

  datatype Turn = Took(piece: Piece) | Refused(error: Error, end: nat)

  ghost predicate TurnIsRight(cfg: Classes, chars: string, frames: seq<Frame>, i: nat, t: Turn) {
    match t
    case Took(p) => p.start == i && Fits(cfg, chars, frames, p)
    case Refused(e, end) => Stuck(cfg, chars, frames, e, i, end)
  }

  method LexWord(cfg: Classes, chars: string, ghost frames: seq<Frame>, i: nat) returns (t: Turn)
    requires cfg.Valid() && i < |chars| && !cfg.whitespace(chars[i]) && !Special(chars[i])
    ensures TurnIsRight(cfg, chars, frames, i, t)
    ensures t.Took? ==> After(frames, t.piece) == frames
  {
    if cfg.StartsWord(chars[i]) {
      var j := SkipRun(c => cfg.InWord(c), chars, i);
      var w := chars[i..j];
      t := Took(Lexeme(Token(if w in cfg.keywords then Keyword(w) else Ident(w), i, j), i, j));
    } else {
      t := Refused(Unexpected(chars[i]), i + 1);
    }
  }

  method LexNumber(cfg: Classes, chars: string, ghost frames: seq<Frame>, i: nat) returns (t: Turn)
    requires i < |chars| && !cfg.whitespace(chars[i]) && IsDigit(chars[i])
    ensures TurnIsRight(cfg, chars, frames, i, t)
    ensures t.Took? ==> After(frames, t.piece) == frames
  {
    var j := ScanNumber(chars, i);
    match cfg.number(chars[i..j])
    case None => t := Refused(BadNumber, j);
    case Some(n) => t := Took(Lexeme(Token(Number(n), i, j), i, j));
  }

  method LexString(cfg: Classes, chars: string, ghost frames: seq<Frame>, i: nat) returns (t: Turn)
    requires i < |chars| && !cfg.whitespace(chars[i]) && Quote(chars[i])
    ensures TurnIsRight(cfg, chars, frames, i, t)
    ensures t.Took? ==> After(frames, t.piece) == frames
  {
    var r := LexQuoted(chars, i + 1, chars[i]);
    match r
    case None => t := Refused(UnterminatedString, |chars|);
    case Some((s, j)) => t := Took(Lexeme(Token(Str(s), i, j), i, j));
  }

  method LexComment(cfg: Classes, chars: string, ghost frames: seq<Frame>, i: nat) returns (t: Turn)
    requires i < |chars| && !cfg.whitespace(chars[i]) && StartsComment(chars, i)
    ensures TurnIsRight(cfg, chars, frames, i, t)
    ensures t.Took? ==> After(frames, t.piece) == frames
  {
    if chars[i + 1] == '/' {
      var j := SkipRun(NotNewline, chars, i + 2);
      t := Took(Comment(i, j));
    } else {
      var closed, j := SkipBlock(chars, i + 2);
      t := if closed then Took(Comment(i, j)) else Refused(UnterminatedComment, j);
    }
  }

  /** Template text, from a backquote or from the brace that closes an interpolation. */
  method LexTemplate(cfg: Classes, chars: string, ghost frames: seq<Frame>, i: nat) returns (t: Turn)
    requires i < |chars| && !cfg.whitespace(chars[i]) && TemplateText(frames, chars[i])
    ensures TurnIsRight(cfg, chars, frames, i, t)
    ensures t.Took? ==> t.piece.Lexeme? && match t.piece.token.tok
      case TemplateStr(_) => chars[i] == '`'
      case TemplateStart(_) => chars[i] == '`'
      case TemplateMiddle(_) => chars[i] == '}'
      case TemplateEnd(_) => chars[i] == '}'
      case _ => false
  {
    var r := LexTemplateChunk(chars, i + 1);
    match r
    case None => t := Refused(UnterminatedTemplate, |chars|);
    case Some((text, (kind, j))) => t := Took(Lexeme(Token(ChunkTok(chars[i] == '`', text, kind), i, j), i, j));
  }

  /** An operator, or a bracket other than a brace. */
  method LexOperator(cfg: Classes, chars: string, ghost frames: seq<Frame>, i: nat, s: string) returns (t: Turn)
    requires i < |chars| && !cfg.whitespace(chars[i]) && !StartsComment(chars, i)
    requires Longest(chars, i, s)
    ensures TurnIsRight(cfg, chars, frames, i, t)
    ensures t.Took? ==> After(frames, t.piece) == frames
  {
    t := Took(Lexeme(Token(Punct(s), i, i + |s|), i, i + |s|));
  }

  lemma CountsPop(frames: seq<Frame>)
    requires !InTemplate(frames)
    ensures Braces(Popped(frames)) == (if Braces(frames) == 0 then 0 else Braces(frames) - 1)
    ensures Depths(Popped(frames)) == Depths(frames)
  {
  }

  lemma CountsLeave(frames: seq<Frame>)
    requires InTemplate(frames)
    ensures Depths(frames) != [] && Braces(Popped(frames)) == Braces(frames)
    ensures Depths(Popped(frames)) == Depths(frames)[..|Depths(frames)| - 1]
    ensures Depths(frames) == Depths(frames)[..|Depths(frames)| - 1] + [Braces(frames)]
  {
  }

  method Next(cfg: Classes, chars: string, ghost frames: seq<Frame>, i: nat, depth: nat, stack: seq<nat>)
    returns (t: Turn, newDepth: nat, newStack: seq<nat>)
    requires cfg.Valid() && i < |chars| && Counts(frames, depth, stack)
    ensures TurnIsRight(cfg, chars, frames, i, t)
    ensures t.Took? ==> Counts(After(frames, t.piece), newDepth, newStack)
  {
    var c := chars[i];
    newDepth, newStack := depth, stack;
    if cfg.whitespace(c) {
      t := Took(Space(i, i + 1));
    } else if StartsComment(chars, i) {
      t := LexComment(cfg, chars, frames, i);
    } else if c == '#' || c == '{' {
      t, newDepth := LexOpen(cfg, chars, frames, i, depth);
    } else if c == '}' {
      t, newDepth, newStack := LexClose(cfg, chars, frames, i, depth, stack);
    } else if Quote(c) {
      t := LexString(cfg, chars, frames, i);
    } else if c == '`' {
      t, newStack := LexBackquote(cfg, chars, frames, i, depth, stack);
    } else if IsDigit(c) {
      t := LexNumber(cfg, chars, frames, i);
    } else {
      t := LexPlain(cfg, chars, frames, i);
    }
  }

  method LexPlain(cfg: Classes, chars: string, ghost frames: seq<Frame>, i: nat) returns (t: Turn)
    requires cfg.Valid() && i < |chars| && !cfg.whitespace(chars[i]) && !StartsComment(chars, i)
    requires chars[i] !in {'{', '}', '#', '`'} && !Quote(chars[i]) && !IsDigit(chars[i])
    ensures TurnIsRight(cfg, chars, frames, i, t)
    ensures t.Took? ==> After(frames, t.piece) == frames
  {
    match Operator(chars, i)
    case Some(s) =>
      OperatorIsLongest(chars, i);
      t := LexOperator(cfg, chars, frames, i, s);
    case None =>
      t := LexWord(cfg, chars, frames, i);
  }

  method LexOpen(cfg: Classes, chars: string, ghost frames: seq<Frame>, i: nat, depth: nat) returns (t: Turn, newDepth: nat)
    requires i < |chars| && !cfg.whitespace(chars[i]) && (chars[i] == '#' || chars[i] == '{') && depth == Braces(frames)
    ensures TurnIsRight(cfg, chars, frames, i, t)
    ensures t.Took? ==> Counts(After(frames, t.piece), newDepth, Depths(frames))
  {
    newDepth := depth + 1;
    CountsPush(frames, Brace);
    if chars[i] == '{' {
      t := Took(Lexeme(Token(LBrace, i, i + 1), i, i + 1));
    } else if At(chars, i + 1, '{') {
      t := Took(Lexeme(Token(HashBrace, i, i + 2), i, i + 2));
    } else {
      t := Refused(BareHash, i + 1);
    }
  }

  method LexClose(cfg: Classes, chars: string, ghost frames: seq<Frame>, i: nat, depth: nat, stack: seq<nat>)
    returns (t: Turn, newDepth: nat, newStack: seq<nat>)
    requires i < |chars| && !cfg.whitespace(chars[i]) && chars[i] == '}' && Counts(frames, depth, stack)
    ensures TurnIsRight(cfg, chars, frames, i, t)
    ensures t.Took? ==> Counts(After(frames, t.piece), newDepth, newStack)
  {
    TestIsInTemplate(frames);
    newDepth, newStack := depth, stack;
    if stack != [] && stack[|stack| - 1] == depth {
      CountsLeave(frames);
      newStack := stack[..|stack| - 1];
      t := LexTemplate(cfg, chars, frames, i);
      if t.Took? && t.piece.token.tok.TemplateMiddle? {
        newStack := newStack + [depth];
      }
    } else {
      CountsPop(frames);
      newDepth := if depth == 0 then 0 else depth - 1;
      t := Took(Lexeme(Token(RBrace, i, i + 1), i, i + 1));
    }
  }

  method LexBackquote(cfg: Classes, chars: string, ghost frames: seq<Frame>, i: nat, depth: nat, stack: seq<nat>)
    returns (t: Turn, newStack: seq<nat>)
    requires i < |chars| && !cfg.whitespace(chars[i]) && chars[i] == '`' && Counts(frames, depth, stack)
    ensures TurnIsRight(cfg, chars, frames, i, t)
    ensures t.Took? ==> Counts(After(frames, t.piece), depth, newStack)
  {
    newStack := stack;
    CountsPush(frames, Template);
    t := LexTemplate(cfg, chars, frames, i);
    if t.Took? && t.piece.token.tok.TemplateStart? {
      newStack := stack + [depth];
    }
  }
}
