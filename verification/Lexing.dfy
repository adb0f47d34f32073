/** Whole inputs: the pieces the lexer cuts them into, and what follows for its tokens. */
module Lexing {
  import opened Wrappers
  import opened Literals
  import opened Lexer
  import opened Tilings

  ghost function RulesOf(cfg: Classes, chars: string): Rules {
    Rules((frames, p) => After(frames, p), (frames, p) => Fits(cfg, chars, frames, p))
  }

  /** A reading of the input: its pieces, end to end. */
  ghost predicate Reading(cfg: Classes, chars: string, ps: seq<Piece>) {
    Tiles(RulesOf(cfg, chars), ps, |chars|)
  }

  // ----- at a place, with the same frames open, one piece fits at most -----

  datatype Kind = Texts | Digits | Quoted | Braced | Operators | Words

  /** The first character and the frames decide the kind of token. */
  function KindAt(frames: seq<Frame>, c: char): Kind {
    if TemplateText(frames, c) then Texts
    else if IsDigit(c) then Digits
    else if Quote(c) then Quoted
    else if c == '{' || c == '#' || c == '}' then Braced
    else if One(c) then Operators
    else Words
  }

  function KindOf(tok: Tok): Kind {
    match tok
    case Punct(_) => Operators
    case LBrace | HashBrace | RBrace => Braced
    case Number(_) => Digits
    case Str(_) => Quoted
    case Keyword(_) => Words
    case Ident(_) => Words
    case _ => Texts
  }

  lemma SpellingStarts(chars: string, i: nat, s: string)
    requires Spelling(s) && StandsAt(chars, i, s)
    ensures i < |chars| && One(chars[i])
  {
    StandsChars(chars, i, s);
  }

  lemma SpelledKind(cfg: Classes, chars: string, frames: seq<Frame>, tok: Tok, i: nat, end: nat)
    requires i < end <= |chars| && Spelled(cfg, chars, frames, tok, i, end)
    ensures KindOf(tok) == KindAt(frames, chars[i])
  {
    match tok {
      case Punct(s) => SpellingStarts(chars, i, s);
      case Keyword(_) =>
      case Ident(_) =>
      case _ =>
    }
  }

  lemma OneToken(cfg: Classes, chars: string, frames: seq<Frame>, a: Tok, b: Tok, i: nat, m: nat, n: nat)
    requires i < m <= |chars| && i < n <= |chars|
    requires Spelled(cfg, chars, frames, a, i, m) && Spelled(cfg, chars, frames, b, i, n)
    requires KindOf(a) == KindOf(b)
    ensures a == b && m == n
  {
    match KindOf(a) {
      case Texts =>
      case Digits =>
      case Quoted =>
      case Braced =>
      case Operators =>
        assert |a.spelling| == |b.spelling|;
      case Words =>
    }
  }

  lemma OnePiece(cfg: Classes, chars: string, frames: seq<Frame>, p: Piece, q: Piece)
    requires p.start == q.start && Fits(cfg, chars, frames, p) && Fits(cfg, chars, frames, q)
    ensures p == q
  {
    if p.Lexeme? {
      SpelledKind(cfg, chars, frames, p.token.tok, p.start, p.end);
      SpelledKind(cfg, chars, frames, q.token.tok, p.start, q.end);
      OneToken(cfg, chars, frames, p.token.tok, q.token.tok, p.start, p.end, q.end);
    }
  }

  lemma RulesSensible(cfg: Classes, chars: string)
    ensures RulesOf(cfg, chars).Sensible()
  {
    forall f, p, q | Fits(cfg, chars, f, p) && Fits(cfg, chars, f, q) && p.start == q.start ensures p == q {
      OnePiece(cfg, chars, f, p, q);
    }
  }

  /** The characters determine the pieces, and so the tokens. */
  lemma OneReading(cfg: Classes, chars: string, ps: seq<Piece>, qs: seq<Piece>)
    requires Reading(cfg, chars, ps) && Reading(cfg, chars, qs)
    ensures ps == qs
  {
    RulesSensible(cfg, chars);
    OneCut(RulesOf(cfg, chars), ps, qs, |chars|);
  }

  // ----- where the lexer gives up, nothing fits -----

  lemma StuckFitsNothing(cfg: Classes, chars: string, frames: seq<Frame>, e: Error, i: nat, end: nat, p: Piece)
    requires Stuck(cfg, chars, frames, e, i, end) && p.start == i
    ensures !Fits(cfg, chars, frames, p)
  {
    if p.Lexeme? && Fits(cfg, chars, frames, p) {
      SpelledKind(cfg, chars, frames, p.token.tok, i, p.end);
    }
  }

  lemma NoReading(cfg: Classes, chars: string, ps: seq<Piece>, e: Error, i: nat, end: nat)
    requires Tiles(RulesOf(cfg, chars), ps, i) && Stuck(cfg, chars, Frames(RulesOf(cfg, chars), ps, |ps|), e, i, end)
    ensures !exists qs :: Reading(cfg, chars, qs)
  {
    var r := RulesOf(cfg, chars);
    RulesSensible(cfg, chars);
    forall qs ensures !Reading(cfg, chars, qs) {
      if Reading(cfg, chars, qs) {
        NoCut(r, ps, i, qs, |chars|);
        StuckFitsNothing(cfg, chars, Frames(r, ps, |ps|), e, i, end, qs[|ps|]);
      }
    }
  }

  /** The lexer succeeds exactly on the inputs that have a reading, and returns its tokens and an
      empty token at the end; otherwise it reports the first place where nothing fits. */
  method Lex(cfg: Classes, chars: string) returns (r: LexResult, ghost ps: seq<Piece>)
    requires cfg.Valid()
    ensures r.Lexed? <==> exists qs :: Reading(cfg, chars, qs)
    ensures r.Lexed? ==> Reading(cfg, chars, ps) && r.tokens == TokensOf(ps) + [Token(Eof, |chars|, |chars|)]
    ensures r.Failed? ==>
      && Tiles(RulesOf(cfg, chars), ps, r.start)
      && Stuck(cfg, chars, Frames(RulesOf(cfg, chars), ps, |ps|), r.error, r.start, r.end)
  {
    var tokens: seq<Token> := [];
    var i := 0;
    var depth, stack := 0, [];
    ps := [];
    ghost var rules := RulesOf(cfg, chars);
    while i < |chars|
      invariant i <= |chars| && Tiles(rules, ps, i) && tokens == TokensOf(ps)
      invariant Counts(Frames(rules, ps, |ps|), depth, stack)
    {
      var t;
      t, depth, stack := Next(cfg, chars, Frames(rules, ps, |ps|), i, depth, stack);
      match t
      case Refused(e, end) =>
        NoReading(cfg, chars, ps, e, i, end);
        return Failed(e, i, end), ps;
      case Took(p) =>
        TileOne(rules, ps, i, p);
        if p.Lexeme? {
          tokens := tokens + [p.token];
        }
        ps := ps + [p];
        i := p.end;
    }
    assert Reading(cfg, chars, ps);
    return Lexed(tokens + [Token(Eof, |chars|, |chars|)]), ps;
  }

  // ----- the tokens cover everything but white space and comments -----

  /** The character at `x` is a piece of its own. */
  predicate InSpace(ps: seq<Piece>, x: nat) {
    Space(x, x + 1) in ps
  }

  ghost predicate InComment(chars: string, ps: seq<Piece>, x: nat) {
    exists p :: p in ps && p.Comment? && p.start <= x < p.end
      && StartsComment(chars, p.start) && CommentEnd(chars, p.start) == Some(p.end)
  }

  lemma PieceFits(cfg: Classes, chars: string, ps: seq<Piece>, k: nat)
    requires Reading(cfg, chars, ps) && k < |ps|
    ensures ps[k].start < ps[k].end <= |chars| && Aligned(ps[k])
    ensures cfg.whitespace(chars[ps[k].start]) == ps[k].Space? && (ps[k].Space? ==> ps[k].end == ps[k].start + 1)
    ensures ps[k].Comment? ==> StartsComment(chars, ps[k].start) && CommentEnd(chars, ps[k].start) == Some(ps[k].end)
  {
    assert PieceAt(RulesOf(cfg, chars), ps, k);
  }

  /** On success the token spans are non-empty, in order, disjoint and in range, and a character is
      outside all of them exactly when it is a white space between pieces or lies in a comment. */
  lemma TokensCover(cfg: Classes, chars: string, ps: seq<Piece>)
    requires Reading(cfg, chars, ps)
    ensures Ordered(TokensOf(ps), |chars|)
    ensures forall x :: 0 <= x < |chars| ==>
      (!InToken(TokensOf(ps), x) <==> InSpace(ps, x) || InComment(chars, ps, x))
    ensures forall p :: p in ps && p.Space? ==> p.start < |chars| && cfg.whitespace(chars[p.start])
  {
    RulesSensible(cfg, chars);
    forall p | p in ps ensures Aligned(p) {
      var k :| 0 <= k < |ps| && ps[k] == p;
      PieceFits(cfg, chars, ps, k);
    }
    TokensOrdered(RulesOf(cfg, chars), ps, |chars|);
    forall x | 0 <= x < |chars|
      ensures !InToken(TokensOf(ps), x) <==> InSpace(ps, x) || InComment(chars, ps, x)
    {
      Covered(cfg, chars, ps, x);
    }
    forall p | p in ps && p.Space? ensures p.start < |chars| && cfg.whitespace(chars[p.start]) {
      var k :| 0 <= k < |ps| && ps[k] == p;
      PieceFits(cfg, chars, ps, k);
    }
  }

  lemma Covered(cfg: Classes, chars: string, ps: seq<Piece>, x: nat)
    requires Reading(cfg, chars, ps) && x < |chars|
    ensures !InToken(TokensOf(ps), x) <==> InSpace(ps, x) || InComment(chars, ps, x)
  {
    var r := RulesOf(cfg, chars);
    RulesSensible(cfg, chars);
    var k := PieceFor(r, ps, |chars|, |ps|, x);
    PieceFits(cfg, chars, ps, k);
    forall j | 0 <= j < |ps| && ps[j].start <= x < ps[j].end ensures j == k {
      OnePieceFor(r, ps, |chars|, j, k, x);
    }
    if ps[k].Lexeme? {
      TokensAre(ps, ps[k].token);
      assert Covers(ps[k].token, x);
    } else {
      forall t | t in TokensOf(ps) ensures !Covers(t, x) {
        TokensAre(ps, t);
        var j :| 0 <= j < |ps| && ps[j].Lexeme? && ps[j].token == t;
        PieceFits(cfg, chars, ps, j);
      }
      assert ps[k] in ps;
    }
  }

  // ----- what stands in a token or a comment -----

  /** `s` stands in `chars` right before `j`. */
  predicate EndsWith(chars: string, j: nat, s: string) {
    |s| <= j <= |chars| && chars[j - |s|..j] == s
  }

  /** The characters between `i` and `end`, less the opening one and the mark at the end, are `text` escaped. */
  ghost predicate Encloses(letter: char -> char, chars: string, i: nat, end: nat, open: char, mark: string, text: string) {
    && i + 1 + |mark| <= end <= |chars| && chars[i] == open && EndsWith(chars, end, mark)
    && text == Unescape(letter, chars[i + 1..end - |mark|])
  }

  lemma QuotedText(chars: string, i: nat, end: nat, quote: char, text: string)
    requires i < |chars| && chars[i] == quote && quote != '\\' && ScanQuoted(chars, i + 1, quote) == Some((text, end))
    ensures Encloses(EscapeChar, chars, i, end, quote, [quote], text)
  {
    ScanIsQuoted(chars, i, end, quote, text);
    EnclosesOne(EscapeChar, chars, i, end, quote, quote, text);
  }

  lemma EnclosesOne(letter: char -> char, chars: string, i: nat, end: nat, open: char, mark: char, text: string)
    requires i + 1 < end <= |chars| && chars[i] == open && chars[end - 1] == mark
    requires text == Unescape(letter, chars[i + 1..end - 1])
    ensures Encloses(letter, chars, i, end, open, [mark], text)
  {
    var marks := [mark];
    assert |marks| == 1;
    assert chars[end - 1..end] == marks;
  }

  lemma ScanIsQuoted(chars: string, i: nat, end: nat, quote: char, text: string)
    requires i < |chars| && quote != '\\' && ScanQuoted(chars, i + 1, quote) == Some((text, end))
    ensures i + 1 < end <= |chars| && chars[end - 1] == quote && text == Unescape(EscapeChar, chars[i + 1..end - 1])
  {
    QuotedTwoPhase(chars, i + 1, quote);
  }

  /** Text stands from `i`, and what ends it up to `end`. */
  ghost predicate Chunked(chars: string, i: nat, end: nat, kind: Chunk, text: string) {
    if kind == Closed then i < end <= |chars| && chars[end - 1] == '`' && text == Unescape(TemplateChar, chars[i..end - 1])
    else
      && i + 1 < end <= |chars| && chars[end - 2] == '$' && chars[end - 1] == '{'
      && text == Unescape(TemplateChar, chars[i..end - 2])
  }

  lemma ScanIsChunked(chars: string, i: nat, end: nat, kind: Chunk, text: string)
    requires i <= |chars| && ScanTemplate(chars, i) == Some((text, (kind, end)))
    ensures Chunked(chars, i, end, kind, text)
  {
    TemplateTwoPhase(chars, i);
  }

  lemma ChunkText(chars: string, i: nat, end: nat, kind: Chunk, text: string)
    requires i < |chars| && Chunked(chars, i + 1, end, kind, text)
    ensures kind == Closed ==> Encloses(TemplateChar, chars, i, end, chars[i], "`", text)
    ensures kind == Chunk.Opens ==> Encloses(TemplateChar, chars, i, end, chars[i], "${", text)
  {
    EndsWithMark(chars, end);
  }

  lemma EndsWithMark(chars: string, j: nat)
    requires j <= |chars|
    ensures EndsWith(chars, j, "`") <==> j >= 1 && chars[j - 1] == '`'
    ensures EndsWith(chars, j, "${") <==> j >= 2 && chars[j - 2] == '$' && chars[j - 1] == '{'
  {
    if j >= 1 && chars[j - 1] == '`' { assert chars[j - 1..j] == "`"; }
    if j >= 2 && chars[j - 2] == '$' && chars[j - 1] == '{' { assert chars[j - 2..j] == "${"; }
    if EndsWith(chars, j, "`") { assert chars[j - 1] == chars[j - 1..j][0]; }
    if EndsWith(chars, j, "${") { assert chars[j - 2] == chars[j - 2..j][0] && chars[j - 1] == chars[j - 2..j][1]; }
  }

  /** Every literal token of a reading, by its characters: strings between their quotes; whole templates between
      backquotes; the start of one up to an interpolation, its middles from a brace to the next one, its end from
      a brace to a backquote; each with the text the escapes between stand for. */
  lemma LiteralTokens(cfg: Classes, chars: string, ps: seq<Piece>, k: nat)
    requires Reading(cfg, chars, ps) && k < |ps| && ps[k].Lexeme?
    ensures var (i, end) := (ps[k].start, ps[k].end);
      match ps[k].token.tok
      case Str(text) => i < |chars| && Quote(chars[i]) && Encloses(EscapeChar, chars, i, end, chars[i], [chars[i]], text)
      case TemplateStr(text) => Encloses(TemplateChar, chars, i, end, '`', "`", text)
      case TemplateStart(text) => Encloses(TemplateChar, chars, i, end, '`', "${", text)
      case TemplateMiddle(text) => Encloses(TemplateChar, chars, i, end, '}', "${", text)
      case TemplateEnd(text) => Encloses(TemplateChar, chars, i, end, '}', "`", text)
      case _ => true
  {
    assert PieceAt(RulesOf(cfg, chars), ps, k);
    TokenEncloses(cfg, chars, Frames(RulesOf(cfg, chars), ps, k), ps[k].token.tok, ps[k].start, ps[k].end);
  }

  lemma TokenEncloses(cfg: Classes, chars: string, frames: seq<Frame>, tok: Tok, i: nat, end: nat)
    requires i < end <= |chars| && Spelled(cfg, chars, frames, tok, i, end)
    ensures match tok
      case Str(text) => Quote(chars[i]) && Encloses(EscapeChar, chars, i, end, chars[i], [chars[i]], text)
      case TemplateStr(text) => Encloses(TemplateChar, chars, i, end, '`', "`", text)
      case TemplateStart(text) => Encloses(TemplateChar, chars, i, end, '`', "${", text)
      case TemplateMiddle(text) => Encloses(TemplateChar, chars, i, end, '}', "${", text)
      case TemplateEnd(text) => Encloses(TemplateChar, chars, i, end, '}', "`", text)
      case _ => true
  {
    if tok.Str? {
      QuotedText(chars, i, end, chars[i], tok.text);
    } else if tok.TemplateStr? || tok.TemplateStart? || tok.TemplateMiddle? || tok.TemplateEnd? {
      var (text, (kind, _)) := ScanTemplate(chars, i + 1).value;
      ScanIsChunked(chars, i + 1, end, kind, text);
      ChunkText(chars, i, end, kind, text);
    }
  }

  /** A line comment ends before the first line feed, a block comment just past the first close. */
  lemma CommentsEnd(chars: string, i: nat, j: nat)
    requires StartsComment(chars, i) && CommentEnd(chars, i) == Some(j)
    ensures At(chars, i + 1, '/') ==>
      i + 2 <= j <= |chars| && (j < |chars| ==> chars[j] == '\n') && forall k :: i + 2 <= k < j ==> chars[k] != '\n'
    ensures At(chars, i + 1, '*') ==>
      i + 4 <= j <= |chars| && Closes(chars, j - 2) && forall k :: i + 2 <= k < j - 2 ==> !Closes(chars, k)
  {
  }

  // ----- templates nest -----

  /** How many templates the first `k` pieces open less how many they close. */
  function OpenTemplates(ps: seq<Piece>, k: nat): int
    requires k <= |ps|
  {
    if k == 0 then 0
    else OpenTemplates(ps, k - 1) + if !ps[k - 1].Lexeme? then 0 else match ps[k - 1].token.tok
      case TemplateStart(_) => 1
      case TemplateEnd(_) => -1
      case _ => 0
  }

  /** The same for braces, over the pieces from `j` to `k`. */
  function OpenBraces(ps: seq<Piece>, j: nat, k: nat): int
    requires j <= k <= |ps|
  {
    if k == j then 0
    else OpenBraces(ps, j, k - 1) + if !ps[k - 1].Lexeme? then 0 else match ps[k - 1].token.tok
      case LBrace | HashBrace => 1
      case RBrace => -1
      case _ => 0
  }

  predicate OpensTemplate(p: Piece) {
    p.Lexeme? && (p.token.tok.TemplateStart? || p.token.tok.TemplateMiddle?)
  }

  predicate ClosesTemplate(p: Piece) {
    p.Lexeme? && (p.token.tok.TemplateMiddle? || p.token.tok.TemplateEnd?)
  }

  lemma StepFits(cfg: Classes, chars: string, ps: seq<Piece>, i: nat, k: nat)
    requires Tiles(RulesOf(cfg, chars), ps, i) && k < |ps|
    ensures Fits(cfg, chars, Frames(RulesOf(cfg, chars), ps, k), ps[k])
    ensures Frames(RulesOf(cfg, chars), ps, k + 1) == After(Frames(RulesOf(cfg, chars), ps, k), ps[k])
    ensures ps[k].Lexeme? && ps[k].token.tok.RBrace? ==> !InTemplate(Frames(RulesOf(cfg, chars), ps, k))
    ensures ClosesTemplate(ps[k]) ==> InTemplate(Frames(RulesOf(cfg, chars), ps, k))
  {
    assert PieceAt(RulesOf(cfg, chars), ps, k);
  }

  /** At every point of a run the lexer's template stack has one entry per template opened and not
      yet closed; its entries do not decrease and none exceeds the brace depth. */
  lemma {:induction false} StackInStep(cfg: Classes, chars: string, ps: seq<Piece>, i: nat, k: nat, depth: nat, stack: seq<nat>)
    requires Tiles(RulesOf(cfg, chars), ps, i) && k <= |ps|
    requires Counts(Frames(RulesOf(cfg, chars), ps, k), depth, stack)
    ensures |stack| == OpenTemplates(ps, k)
    ensures forall j :: 0 <= j < |stack| ==> stack[j] <= depth
    ensures forall j, m :: 0 <= j <= m < |stack| ==> stack[j] <= stack[m]
  {
    DepthsBounded(Frames(RulesOf(cfg, chars), ps, k));
    if k > 0 {
      var before := Frames(RulesOf(cfg, chars), ps, k - 1);
      StepFits(cfg, chars, ps, i, k - 1);
      StackInStep(cfg, chars, ps, i, k - 1, Braces(before), Depths(before));
      StackMoves(before, ps[k - 1]);
    }
  }

  lemma StackMoves(frames: seq<Frame>, p: Piece)
    requires p.Lexeme? && p.token.tok.RBrace? ==> !InTemplate(frames)
    requires ClosesTemplate(p) ==> InTemplate(frames)
    ensures |Depths(After(frames, p))| == |Depths(frames)|
      + if p.Lexeme? && p.token.tok.TemplateStart? then 1 else if p.Lexeme? && p.token.tok.TemplateEnd? then -1 else 0
    ensures frames != [] ==>
      Braces(After(frames, p)) == Braces(frames)
        + if p.Lexeme? && (p.token.tok.LBrace? || p.token.tok.HashBrace?) then 1 else if p.Lexeme?
            && p.token.tok.RBrace? then -1 else 0
  {
    CountsPush(frames, Brace);
    CountsPush(frames, Template);
    if InTemplate(frames) {
      CountsLeave(frames);
    } else {
      CountsPop(frames);
    }
  }

  /** What writes a frame: the token that opens it, or the middle of a template that reopens it. */
  predicate Opens(p: Piece, f: Frame) {
    match f
    case Template => OpensTemplate(p)
    case Brace => p.Lexeme? && (p.token.tok.LBrace? || p.token.tok.HashBrace?)
  }

  /** These frames stay open, and outermost, from piece `j` to piece `k`. */
  ghost predicate Keeps(r: Rules, ps: seq<Piece>, j: nat, k: nat, frames: seq<Frame>)
    requires k <= |ps|
  {
    forall m :: j <= m <= k ==> KeptAt(r, ps, m, frames)
  }

  predicate KeptAt(r: Rules, ps: seq<Piece>, m: nat, frames: seq<Frame>)
    requires m <= |ps|
  {
    frames <= Frames(r, ps, m)
  }

  lemma AfterKeeps(frames: seq<Frame>, p: Piece, d: nat)
    requires d <= |After(frames, p)| && (ClosesTemplate(p) ==> InTemplate(frames))
    requires p.Lexeme? && p.token.tok.RBrace? ==> !InTemplate(frames)
    ensures
      || (d <= |frames| && frames[..d] == After(frames, p)[..d])
      || (d == |After(frames, p)| && Opens(p, After(frames, p)[d - 1]))
  {
  }

  /** Every open frame was opened by an earlier piece, and stayed open since. */
  lemma {:induction false} Opener(cfg: Classes, chars: string, ps: seq<Piece>, i: nat, k: nat, d: nat) returns (j: nat)
    requires Tiles(RulesOf(cfg, chars), ps, i) && k <= |ps| && 1 <= d <= |Frames(RulesOf(cfg, chars), ps, k)|
    ensures j < k && Opens(ps[j], Frames(RulesOf(cfg, chars), ps, k)[d - 1])
    ensures Frames(RulesOf(cfg, chars), ps, j + 1) == Frames(RulesOf(cfg, chars), ps, k)[..d]
    ensures Keeps(RulesOf(cfg, chars), ps, j + 1, k, Frames(RulesOf(cfg, chars), ps, k)[..d])
  {
    var r := RulesOf(cfg, chars);
    StepFits(cfg, chars, ps, i, k - 1);
    var now, before := Frames(r, ps, k), Frames(r, ps, k - 1);
    AfterKeeps(before, ps[k - 1], d);
    if d == |now| && Opens(ps[k - 1], now[d - 1]) {
      j := k - 1;
    } else {
      j := Opener(cfg, chars, ps, i, k - 1, d);
      assert before[d - 1] == before[..d][d - 1] == now[..d][d - 1];
    }
  }

  lemma {:induction false} BracesBetween(cfg: Classes, chars: string, ps: seq<Piece>, i: nat, j: nat, k: nat, kept: seq<Frame>)
    requires Tiles(RulesOf(cfg, chars), ps, i) && j <= k <= |ps| && kept != []
    requires Keeps(RulesOf(cfg, chars), ps, j, k, kept)
    ensures Braces(Frames(RulesOf(cfg, chars), ps, k)) == Braces(Frames(RulesOf(cfg, chars), ps, j)) + OpenBraces(ps, j, k)
    decreases k
  {
    if j < k {
      StepFits(cfg, chars, ps, i, k - 1);
      BracesBetween(cfg, chars, ps, i, j, k - 1, kept);
      assert KeptAt(RulesOf(cfg, chars), ps, k - 1, kept);
      StackMoves(Frames(RulesOf(cfg, chars), ps, k - 1), ps[k - 1]);
    }
  }

  lemma {:induction false} BracesOfPrefix(frames: seq<Frame>, d: nat)
    requires d <= |frames|
    ensures Braces(frames[..d]) <= Braces(frames)
    decreases |frames|
  {
    if d < |frames| {
      assert Popped(frames)[..d] == frames[..d];
      BracesOfPrefix(Popped(frames), d);
    } else {
      assert frames[..d] == frames;
    }
  }

  ghost predicate NeverBelow(ps: seq<Piece>, j: nat, k: nat)
    requires j <= k <= |ps|
  {
    forall m :: j <= m <= k ==> OpenBraces(ps, j, m) >= 0
  }

  lemma KeepsNeverBelow(cfg: Classes, chars: string, ps: seq<Piece>, i: nat, j: nat, k: nat, kept: seq<Frame>)
    requires Tiles(RulesOf(cfg, chars), ps, i) && j <= k <= |ps| && kept != []
    requires Frames(RulesOf(cfg, chars), ps, j) == kept && Keeps(RulesOf(cfg, chars), ps, j, k, kept)
    ensures NeverBelow(ps, j, k)
  {
    forall m | j <= m <= k ensures OpenBraces(ps, j, m) >= 0 {
      BracesBetween(cfg, chars, ps, i, j, m, kept);
      var frames := Frames(RulesOf(cfg, chars), ps, m);
      assert KeptAt(RulesOf(cfg, chars), ps, m, kept);
      assert frames[..|kept|] == kept;
      BracesOfPrefix(frames, |kept|);
    }
  }

  lemma InterpolationOpener(cfg: Classes, chars: string, ps: seq<Piece>, i: nat, k: nat) returns (j: nat)
    requires Tiles(RulesOf(cfg, chars), ps, i) && k < |ps| && ClosesTemplate(ps[k])
    ensures j < k && OpensTemplate(ps[j]) && Frames(RulesOf(cfg, chars), ps, k) != []
    ensures Frames(RulesOf(cfg, chars), ps, j + 1) == Frames(RulesOf(cfg, chars), ps, k)
    ensures Keeps(RulesOf(cfg, chars), ps, j + 1, k, Frames(RulesOf(cfg, chars), ps, k))
  {
    StepFits(cfg, chars, ps, i, k);
    var frames := Frames(RulesOf(cfg, chars), ps, k);
    j := Opener(cfg, chars, ps, i, k, |frames|);
    assert frames[..|frames|] == frames;
  }

  /** A token that closes an interpolation closes the one opened last: between the two every brace
      that opens is closed and none is closed that was not opened there. */
  lemma InterpolationBalances(cfg: Classes, chars: string, ps: seq<Piece>, i: nat, k: nat) returns (j: nat)
    requires Tiles(RulesOf(cfg, chars), ps, i) && k < |ps| && ClosesTemplate(ps[k])
    ensures j < k && OpensTemplate(ps[j])
    ensures Frames(RulesOf(cfg, chars), ps, j + 1) == Frames(RulesOf(cfg, chars), ps, k)
    ensures OpenBraces(ps, j + 1, k) == 0 && NeverBelow(ps, j + 1, k)
    ensures OpenTemplates(ps, j + 1) == OpenTemplates(ps, k)
  {
    j := InterpolationOpener(cfg, chars, ps, i, k);
    var frames := Frames(RulesOf(cfg, chars), ps, k);
    BracesBetween(cfg, chars, ps, i, j + 1, k, frames);
    KeepsNeverBelow(cfg, chars, ps, i, j + 1, k, frames);
    SameFramesSameTemplates(cfg, chars, ps, i, j + 1, k);
  }

  lemma SameFramesSameTemplates(cfg: Classes, chars: string, ps: seq<Piece>, i: nat, j: nat, k: nat)
    requires Tiles(RulesOf(cfg, chars), ps, i) && j <= k <= |ps|
    requires Frames(RulesOf(cfg, chars), ps, j) == Frames(RulesOf(cfg, chars), ps, k)
    ensures OpenTemplates(ps, j) == OpenTemplates(ps, k)
  {
    var frames := Frames(RulesOf(cfg, chars), ps, k);
    StackInStep(cfg, chars, ps, i, j, Braces(frames), Depths(frames));
    StackInStep(cfg, chars, ps, i, k, Braces(frames), Depths(frames));
  }
}
