/** Formatting what the parser made: the parentheses the formatter adds, token by token, open no type
    arguments that were not there before, so the result is read back as it was. */
module Formatting {
  import opened Syntax
  import opened Reader
  import opened TypeArguments
  import opened Printer

  /** A token of the output, and whether the formatter added it. */
  datatype Piece = Piece(tok: Tok, added: bool)

  function Given(ts: seq<Tok>): seq<Piece> {
    seq(|ts|, k requires 0 <= k < |ts| => Piece(ts[k], false))
  }

  function Tagged(e: Expr, minPrec: nat): seq<Piece>
    decreases e, 1
  {
    if ExprPrec(e) < minPrec then [Piece(LParen, true)] + TaggedInner(e) + [Piece(RParen, true)] else TaggedInner(e)
  }

  function TaggedInner(e: Expr): (g: seq<Piece>)
    ensures |g| > 0
    decreases e, 0
  {
    match e
    case Atom(n) => Given([Name(n)])
    case Unary(u, x) => Given([UnTok(u)]) + Tagged(x, UNARY)
    case Binary(op, l, r) => Tagged(l, LeftMin(FORMATTER, op)) + Given([Op(op)]) + Tagged(r, RightMin(FORMATTER, op))
    case Range(a, b, i) => Tagged(a, RANGE) + Given([DotDot(i)]) + Tagged(b, RANGE + 1)
    case Index(o, i) => Tagged(o, POSTFIX) + Given([LBracket]) + Tagged(i, 0) + Given([RBracket])
    case Member(o, f) => Tagged(o, POSTFIX) + Given([Dot, Name(f)])
    case Paren(x) => Given([LParen]) + TaggedInner(x) + Given([RParen])
  }

  function Toks(g: seq<Piece>): seq<Tok> {
    seq(|g|, k requires 0 <= k < |g| => g[k].tok)
  }

  /** The tokens that were there before. */
  function Before(g: seq<Piece>): seq<Tok> {
    if g == [] then []
    else Before(g[..|g| - 1]) + if g[|g| - 1].added then [] else [g[|g| - 1].tok]
  }

  lemma ToksJoin(g: seq<Piece>, h: seq<Piece>)
    ensures Toks(g + h) == Toks(g) + Toks(h)
  {
  }

  lemma {:induction false} BeforeJoin(g: seq<Piece>, h: seq<Piece>)
    ensures Before(g + h) == Before(g) + Before(h)
    decreases |h|
  {
    if h == [] {
      assert g + h == g;
    } else {
      var n := |h| - 1;
      assert (g + h)[..|g + h| - 1] == g + h[..n];
      BeforeJoin(g, h[..n]);
    }
  }

  lemma {:induction false} BeforeGiven(ts: seq<Tok>)
    ensures Before(Given(ts)) == ts && Toks(Given(ts)) == ts
    decreases |ts|
  {
    if ts != [] {
      var n := |ts| - 1;
      assert Given(ts)[..n] == Given(ts[..n]);
      BeforeGiven(ts[..n]);
    }
  }

  /** Three parts at once. */
  lemma Joins(g: seq<Piece>, t: Tok, h: seq<Piece>)
    ensures Toks(g + Given([t]) + h) == Toks(g) + [t] + Toks(h)
    ensures Before(g + Given([t]) + h) == Before(g) + [t] + Before(h)
  {
    BeforeGiven([t]);
    ToksJoin(g, Given([t]));
    BeforeJoin(g, Given([t]));
    ToksJoin(g + Given([t]), h);
    BeforeJoin(g + Given([t]), h);
  }

  lemma Ends(g: seq<Piece>, ts: seq<Tok>)
    ensures Toks(g + Given(ts)) == Toks(g) + ts && Before(g + Given(ts)) == Before(g) + ts
  {
    BeforeGiven(ts);
    ToksJoin(g, Given(ts));
    BeforeJoin(g, Given(ts));
  }

  lemma Wrapped(g: seq<Piece>)
    ensures var all := [Piece(LParen, true)] + g + [Piece(RParen, true)];
      Toks(all) == [LParen] + Toks(g) + [RParen] && Before(all) == Before(g)
  {
    var open, close := [Piece(LParen, true)], [Piece(RParen, true)];
    assert open[..0] == [] && close[..0] == [];
    assert Before(open) == [] && Before(close) == [];
    BeforeJoin(open, g);
    BeforeJoin(open + g, close);
  }

  lemma Bracketed(g: seq<Piece>, h: seq<Piece>)
    ensures var all := g + Given([LBracket]) + h + Given([RBracket]);
      Toks(all) == Toks(g) + [LBracket] + Toks(h) + [RBracket] && Before(all) == Before(g) + [LBracket] + Before(h) + [RBracket]
  {
    Joins(g, LBracket, h);
    Ends(g + Given([LBracket]) + h, [RBracket]);
  }

  lemma Prefixed(t: Tok, g: seq<Piece>)
    ensures Toks(Given([t]) + g) == [t] + Toks(g) && Before(Given([t]) + g) == [t] + Before(g)
  {
    BeforeGiven([t]);
    ToksJoin(Given([t]), g);
    BeforeJoin(Given([t]), g);
  }

  /** With the added tokens it is the output, without them the tokens of the tree itself. */
  lemma {:induction false} TaggedSpells(e: Expr, minPrec: nat)
    ensures Toks(Tagged(e, minPrec)) == Written(e, minPrec) && Before(Tagged(e, minPrec)) == Raw(e)
    decreases e, 1
  {
    InnerSpells(e);
    if ExprPrec(e) < minPrec {
      Wrapped(TaggedInner(e));
    }
  }

  lemma {:induction false} InnerSpells(e: Expr)
    ensures Toks(TaggedInner(e)) == WrittenInner(e) && Before(TaggedInner(e)) == Raw(e)
    decreases e, 0
  {
    match e {
      case Atom(n) => BeforeGiven([Name(n)]);
      case Unary(u, x) =>
        TaggedSpells(x, UNARY);
        Prefixed(UnTok(u), Tagged(x, UNARY));
      case Binary(op, l, r) =>
        TaggedSpells(l, LeftMin(FORMATTER, op));
        TaggedSpells(r, RightMin(FORMATTER, op));
        Joins(Tagged(l, LeftMin(FORMATTER, op)), Op(op), Tagged(r, RightMin(FORMATTER, op)));
      case Range(a, b, i) =>
        TaggedSpells(a, RANGE);
        TaggedSpells(b, RANGE + 1);
        Joins(Tagged(a, RANGE), DotDot(i), Tagged(b, RANGE + 1));
      case Index(o, i) =>
        TaggedSpells(o, POSTFIX);
        TaggedSpells(i, 0);
        Bracketed(Tagged(o, POSTFIX), Tagged(i, 0));
      case Member(o, f) =>
        TaggedSpells(o, POSTFIX);
        Ends(Tagged(o, POSTFIX), [Dot, Name(f)]);
      case Paren(x) =>
        InnerSpells(x);
        Prefixed(LParen, TaggedInner(x));
        Ends(Given([LParen]) + TaggedInner(x), [RParen]);
    }
  }

  /** What may stand before a parenthesis the formatter adds. */
  predicate Opener(t: Tok) {
    t == LParen || t == LBracket || t == Op(Coalesce)
  }

  /** Only parentheses are added, and the opening ones stand at the start or after an opener. */
  ghost predicate Tidy(g: seq<Piece>) {
    forall k :: 0 <= k < |g| ==> TidyAt(g, k)
  }

  predicate TidyAt(g: seq<Piece>, k: nat)
    requires k < |g|
  {
    g[k].added ==> IsParen(g[k].tok) && (g[k].tok == LParen && k > 0 ==> Opener(g[k - 1].tok))
  }

  lemma TidyJoin(g: seq<Piece>, t: Tok, h: seq<Piece>)
    requires Tidy(g) && Tidy(h) && (Opener(t) || h == [] || !h[0].added)
    ensures Tidy(g + Given([t]) + h)
  {
    var all := g + Given([t]) + h;
    forall k | 0 <= k < |all| ensures TidyAt(all, k) {
      if k < |g| {
        assert TidyAt(g, k);
      } else if k > |g| {
        assert TidyAt(h, k - |g| - 1);
      }
    }
  }

  lemma TidyEnds(g: seq<Piece>, ts: seq<Tok>)
    requires Tidy(g)
    ensures Tidy(g + Given(ts))
  {
    forall k | 0 <= k < |g + Given(ts)| ensures TidyAt(g + Given(ts), k) {
      if k < |g| {
        assert TidyAt(g, k);
      }
    }
  }

  /** In a tree the parser made, the formatter adds parentheses around operands of `??` only. */
  lemma OperandsBare(op: BinOp, l: Expr, r: Expr)
    requires Canonical(PARSER, Binary(op, l, r)) && op != Coalesce
    ensures ExprPrec(l) >= LeftMin(FORMATTER, op) && ExprPrec(r) >= RightMin(FORMATTER, op)
    ensures !IsCoalesce(l) && !IsCoalesce(r)
  {
    TiersDiffer(op);
    if l.Binary? { TiersDiffer(l.op); }
    if r.Binary? { TiersDiffer(r.op); }
  }

  lemma TightBare(x: Expr, minPrec: nat)
    requires Prec(PARSER, x) >= minPrec >= RANGE
    ensures ExprPrec(x) >= minPrec && !IsCoalesce(x)
  {
    if x.Binary? { TiersDiffer(x.op); }
  }

  /** Such a tree, unless it is a `??` itself, begins with a token of its own. */
  lemma {:induction false} BeginsBare(e: Expr)
    requires Canonical(PARSER, e) && !IsCoalesce(e)
    ensures !TaggedInner(e)[0].added
  {
    match e {
      case Binary(op, l, r) =>
        OperandsBare(op, l, r);
        BeginsBare(l);
      case Range(a, b, _) =>
        TightBare(a, RANGE);
        BeginsBare(a);
      case Index(o, _) =>
        TightBare(o, POSTFIX);
        BeginsBare(o);
      case Member(o, _) =>
        TightBare(o, POSTFIX);
        BeginsBare(o);
      case _ =>
    }
  }

  lemma UnaryTidy(u: UnOp, x: Expr)
    requires Canonical(PARSER, Unary(u, x)) && Tidy(Tagged(x, UNARY))
    ensures Tidy(TaggedInner(Unary(u, x)))
  {
    TightBare(x, UNARY);
    BeginsBare(x);
    TidyJoin([], UnTok(u), Tagged(x, UNARY));
    assert [] + Given([UnTok(u)]) + Tagged(x, UNARY) == Given([UnTok(u)]) + Tagged(x, UNARY);
  }

  lemma BinaryTidy(op: BinOp, l: Expr, r: Expr)
    requires Canonical(PARSER, Binary(op, l, r))
    requires Tidy(Tagged(l, LeftMin(FORMATTER, op))) && Tidy(Tagged(r, RightMin(FORMATTER, op)))
    ensures Tidy(TaggedInner(Binary(op, l, r)))
  {
    var right := Tagged(r, RightMin(FORMATTER, op));
    if op != Coalesce {
      OperandsBare(op, l, r);
      BeginsBare(r);
    }
    TidyJoin(Tagged(l, LeftMin(FORMATTER, op)), Op(op), right);
  }

  lemma RangeTidy(a: Expr, b: Expr, i: bool)
    requires Canonical(PARSER, Range(a, b, i)) && Tidy(Tagged(a, RANGE)) && Tidy(Tagged(b, RANGE + 1))
    ensures Tidy(TaggedInner(Range(a, b, i)))
  {
    TightBare(b, RANGE + 1);
    BeginsBare(b);
    TidyJoin(Tagged(a, RANGE), DotDot(i), Tagged(b, RANGE + 1));
  }

  lemma IndexTidy(o: Expr, i: Expr)
    requires Tidy(Tagged(o, POSTFIX)) && Tidy(Tagged(i, 0))
    ensures Tidy(TaggedInner(Index(o, i)))
  {
    TidyJoin(Tagged(o, POSTFIX), LBracket, Tagged(i, 0));
    TidyEnds(Tagged(o, POSTFIX) + Given([LBracket]) + Tagged(i, 0), [RBracket]);
  }

  lemma ParenTidy(x: Expr)
    requires Tidy(TaggedInner(x))
    ensures Tidy(TaggedInner(Paren(x)))
  {
    TidyJoin([], LParen, TaggedInner(x));
    assert [] + Given([LParen]) + TaggedInner(x) == Given([LParen]) + TaggedInner(x);
    TidyEnds(Given([LParen]) + TaggedInner(x), [RParen]);
  }

  lemma {:induction false} InnerTidy(e: Expr)
    requires Canonical(PARSER, e)
    ensures Tidy(TaggedInner(e))
    decreases e, 0
  {
    match e {
      case Atom(n) => TidyEnds([], [Name(n)]); assert [] + Given([Name(n)]) == Given([Name(n)]);
      case Unary(u, x) => TaggedTidy(x, UNARY); UnaryTidy(u, x);
      case Binary(op, l, r) =>
        TaggedTidy(l, LeftMin(FORMATTER, op));
        TaggedTidy(r, RightMin(FORMATTER, op));
        BinaryTidy(op, l, r);
      case Range(a, b, i) => TaggedTidy(a, RANGE); TaggedTidy(b, RANGE + 1); RangeTidy(a, b, i);
      case Index(o, i) => TaggedTidy(o, POSTFIX); TaggedTidy(i, 0); IndexTidy(o, i);
      case Member(o, f) => TaggedTidy(o, POSTFIX); TidyEnds(Tagged(o, POSTFIX), [Dot, Name(f)]);
      case Paren(x) => InnerTidy(x); ParenTidy(x);
    }
  }

  lemma {:induction false} TaggedTidy(e: Expr, minPrec: nat)
    requires Canonical(PARSER, e)
    ensures Tidy(Tagged(e, minPrec))
    decreases e, 1
  {
    InnerTidy(e);
    if ExprPrec(e) < minPrec {
      var g, all := TaggedInner(e), Tagged(e, minPrec);
      forall k | 0 <= k < |all| ensures TidyAt(all, k) {
        if 0 < k <= |g| {
          assert TidyAt(g, k - 1);
        }
      }
    }
  }

  /** Tokens that are no parentheses, and a parenthesis after the end of a type, were there before. */
  lemma RegionWasThere(g: seq<Piece>, i: nat, n: nat)
    requires Tidy(g) && 0 < n && i + n < |g|
    requires forall k :: i <= k < i + n ==> !IsParen(g[k].tok)
    requires EndsType(g[i + n - 1].tok) && g[i + n].tok == LParen
    ensures forall k :: i <= k <= i + n ==> !g[k].added
  {
    forall k | i <= k <= i + n ensures !g[k].added {
      assert TidyAt(g, k);
    }
  }

  lemma {:induction false} BeforeWhole(g: seq<Piece>)
    requires forall k :: 0 <= k < |g| ==> !g[k].added
    ensures Before(g) == Toks(g)
    decreases |g|
  {
    if g != [] {
      BeforeWhole(g[..|g| - 1]);
    }
  }

  lemma CommitWasThere(ns: Names, g: seq<Piece>, i: nat)
    requires Tidy(g) && i <= |g| && Committed(ns, Toks(g)[i..])
    ensures !Quiet(CommitsIn(ns), Before(g))
  {
    var ts := Toks(g)[i..];
    var n := CallAt(ns, ts).value;
    RegionStays(g, i, n);
    var was, k := Before(g), |Before(g[..i])|;
    CommitIsLocal(ns, ts, was[k..]);
    assert !QuietAt(CommitsIn(ns), was, k);
  }

  lemma RegionStays(g: seq<Piece>, i: nat, n: nat)
    requires Tidy(g) && 0 < n && i + n < |g|
    requires var ts := Toks(g)[i..];
      (forall k :: 0 <= k < n ==> !IsParen(ts[k])) && EndsType(ts[n - 1]) && ts[n] == LParen
    ensures |Before(g[..i])| <= |Before(g)| && Agree(Toks(g)[i..], Before(g)[|Before(g[..i])|..], n + 1)
  {
    var ts := Toks(g)[i..];
    forall k | i <= k <= i + n ensures g[k].tok == ts[k - i] {
    }
    RegionWasThere(g, i, n);
    RegionKept(g, i, n + 1);
  }

  /** Tokens that were there before stand together before, too. */
  lemma RegionKept(g: seq<Piece>, i: nat, n: nat)
    requires i + n <= |g| && forall k :: i <= k < i + n ==> !g[k].added
    ensures |Before(g[..i])| <= |Before(g)| && Agree(Toks(g)[i..], Before(g)[|Before(g[..i])|..], n)
  {
    var region := g[i..i + n];
    BeforeWhole(region);
    BeforeParts(g, i, n);
    assert Toks(g)[i..] == Toks(region) + Toks(g[i + n..]);
    AgreeOn(Toks(region), Toks(g[i + n..]), Before(g[i + n..]));
  }

  lemma BeforeParts(g: seq<Piece>, i: nat, n: nat)
    requires i + n <= |g|
    ensures |Before(g[..i])| <= |Before(g)|
    ensures Before(g)[|Before(g[..i])|..] == Before(g[i..i + n]) + Before(g[i + n..])
  {
    var front, region, back := g[..i], g[i..i + n], g[i + n..];
    assert g == front + region + back;
    BeforeJoin(front, region);
    BeforeJoin(front + region, back);
    assert Before(g) == Before(front) + (Before(region) + Before(back));
  }

  lemma AgreeOn(r: seq<Tok>, a: seq<Tok>, b: seq<Tok>)
    ensures Agree(r + a, r + b, |r|)
  {
  }

  /** So where the parser committed nowhere before, it commits nowhere after formatting. */
  lemma FormattingStaysQuiet(ns: Names, e: Expr)
    requires Canonical(PARSER, e) && Quiet(CommitsIn(ns), Raw(e))
    ensures Quiet(CommitsIn(ns), Written(e, 0))
  {
    TaggedSpells(e, 0);
    TaggedTidy(e, 0);
    forall i | 0 <= i <= |Written(e, 0)| ensures QuietAt(CommitsIn(ns), Written(e, 0), i) {
      if Committed(ns, Written(e, 0)[i..]) {
        CommitWasThere(ns, Tagged(e, 0), i);
      }
    }
  }

  /** Formatting a parsed program is safe: whatever the parser made, what the formatter writes for it parses
      to the same tree up to paren nodes, and formatting that again changes nothing. */
  lemma FormattingIsSafe(ns: Names, ts: seq<Tok>)
    requires Parse(PARSER, CommitsIn(ns), ts).Got?
    ensures var e := Parse(PARSER, CommitsIn(ns), ts).e;
            var r := Parse(PARSER, CommitsIn(ns), Written(e, 0));
            && r.Got? && Strip(r.e) == Strip(e)
            && Written(r.e, 0) == Written(e, 0)
  {
    TablesValid();
    CommitsAtLess(ns);
    var c := CommitsIn(ns);
    var e := Parse(PARSER, c, ts).e;
    ParseExactly(PARSER, c, ts, e);
    ParsedIsReadable(e);
    FormattingStaysQuiet(ns, e);
    ParserRoundTrips(ns, e);
    FixedSpells(e, 0);
    var r := Parse(PARSER, c, Written(e, 0));
    ParseExactly(PARSER, c, Written(e, 0), r.e);
    UniquelyParenthesised(r.e, Fixed(e, 0));
    CanonicalIsFixed(r.e);
    FixedSpells(r.e, 0);
  }
}
