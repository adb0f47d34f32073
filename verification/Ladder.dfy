/** The precedence ladder of the language's grammar, and what it says of the formatter's parentheses and of the
    trees the parser makes. */
module Ladder {
  import opened Wrappers
  import opened Syntax
  import opened Reader
  import opened TypeArguments
  import opened Printer

  /** The infix operators from the loosest to the tightest, those of one rung together; the empty rung is the
      range's. */
  const LADDER: seq<set<BinOp>> := [
    {Coalesce},
    {Or},
    {And},
    {Eq, Ne},
    {Lt, Le, Gt, Ge, InstanceOf},
    {BitOr, BitXor},
    {},
    {Add, Sub, WrapAdd, WrapSub},
    {Mul, Div, Mod, WrapMul, Shl, Shr, BitAnd},
    {Pow}]

  /** The formatter has `??` between `&&` and `==`. */
  const PRINTED: seq<set<BinOp>> := [
    {Or},
    {And},
    {Coalesce},
    {Eq, Ne},
    {Lt, Le, Gt, Ge, InstanceOf},
    {BitOr, BitXor},
    {},
    {Add, Sub, WrapAdd, WrapSub},
    {Mul, Div, Mod, WrapMul, Shl, Shr, BitAnd},
    {Pow}]

  predicate Infix(t: Tok) {
    t.Op? || t.DotDot?
  }

  predicate OnRung(ladder: seq<set<BinOp>>, t: Tok, k: nat)
    requires k < |ladder|
  {
    (t.Op? && t.op in ladder[k]) || (t.DotDot? && ladder[k] == {})
  }

  /** `s` stands on a lower rung than `t`. */
  ghost predicate Looser(ladder: seq<set<BinOp>>, s: Tok, t: Tok) {
    exists j, k :: 0 <= j < k < |ladder| && OnRung(ladder, s, j) && OnRung(ladder, t, k)
  }

  ghost predicate Alike(ladder: seq<set<BinOp>>, s: Tok, t: Tok) {
    exists k :: 0 <= k < |ladder| && OnRung(ladder, s, k) && OnRung(ladder, t, k)
  }

  // ----- the tables keep the ladder's order -----

  function Height(t: Table, tok: Tok): int
    requires Infix(tok)
  {
    (if tok.Op? then t.tier(tok.op) else RANGE) - 1
  }

  /** The table gives `tok` the number of its rung of the ladder. */
  ghost predicate NumbersAt(t: Table, ladder: seq<set<BinOp>>, tok: Tok)
    requires Infix(tok)
  {
    0 <= Height(t, tok) < |ladder| && forall k :: 0 <= k < |ladder| ==> (OnRung(ladder, tok, k) <==> k == Height(t, tok))
  }

  lemma ParserNumbers(tok: Tok)
    requires Infix(tok)
    ensures NumbersAt(PARSER, LADDER, tok)
  {
  }

  lemma FormatterNumbers(tok: Tok)
    requires Infix(tok)
    ensures NumbersAt(FORMATTER, PRINTED, tok)
  {
  }

  /** So a table's numbers compare as the rungs do. */
  lemma HeightsCompare(t: Table, ladder: seq<set<BinOp>>, s: Tok, tok: Tok)
    requires Infix(s) && Infix(tok) && NumbersAt(t, ladder, s) && NumbersAt(t, ladder, tok)
    ensures Looser(ladder, s, tok) <==> Height(t, s) < Height(t, tok)
    ensures Alike(ladder, s, tok) <==> Height(t, s) == Height(t, tok)
  {
    assert OnRung(ladder, s, Height(t, s)) && OnRung(ladder, tok, Height(t, tok));
  }

  // ----- two operators in a row -----

  predicate IsPow(t: Tok) {
    t == Op(Pow)
  }

  lemma BinaryWritten(op: BinOp, l: Expr, r: Expr)
    ensures var p := BinPrec(op);
      WrittenInner(Binary(op, l, r)) == Written(l, if op == Pow then p + 1 else p) + [Op(op)] + Written(r, if op == Pow then p else p + 1)
  {
  }

  lemma JoinWritten(tok: Tok, l: Expr, r: Expr)
    requires Infix(tok)
    ensures var p := Height(FORMATTER, tok) + 1;
      WrittenInner(Join(tok, l, r)) == Written(l, if IsPow(tok) then p + 1 else p) + [tok] + Written(r, if IsPow(tok) then p else p + 1)
    ensures ExprPrec(Join(tok, l, r)) == Height(FORMATTER, tok) + 1
  {
    if tok.Op? {
      BinaryWritten(tok.op, l, r);
    } else {
      assert WrittenInner(Range(l, r, tok.inclusive)) == Written(l, RANGE) + [tok] + Written(r, RANGE + 1);
    }
  }

  lemma PairWritten(tok: Tok, a: string, b: string)
    requires Infix(tok)
    ensures WrittenInner(Join(tok, Atom(a), Atom(b))) == [Name(a), tok, Name(b)]
  {
    JoinWritten(tok, Atom(a), Atom(b));
    AtomWritten(a);
    AtomWritten(b);
  }

  lemma OperandWritten(inner: Tok, a: string, b: string, minPrec: nat)
    requires Infix(inner)
    ensures Written(Join(inner, Atom(a), Atom(b)), minPrec) ==
      if Height(FORMATTER, inner) + 1 < minPrec then [LParen, Name(a), inner, Name(b), RParen] else [Name(a), inner, Name(b)]
  {
    PairWritten(inner, a, b);
    JoinWritten(inner, Atom(a), Atom(b));
  }

  /** A left operand is written in parentheses exactly when it is looser than the operator it stands at, or when
      both are `**`. */
  lemma LeftOperand(inner: Tok, outer: Tok, a: string, b: string, c: string)
    requires Infix(inner) && Infix(outer)
    ensures Written(Join(outer, Join(inner, Atom(a), Atom(b)), Atom(c)), 0) ==
      if Looser(PRINTED, inner, outer) || (IsPow(inner) && IsPow(outer))
      then [LParen, Name(a), inner, Name(b), RParen, outer, Name(c)]
      else [Name(a), inner, Name(b), outer, Name(c)]
  {
    FormatterNumbers(inner);
    FormatterNumbers(outer);
    HeightsCompare(FORMATTER, PRINTED, inner, outer);
    var p := Height(FORMATTER, outer) + 1;
    OperandWritten(inner, a, b, if IsPow(outer) then p + 1 else p);
    JoinWritten(outer, Join(inner, Atom(a), Atom(b)), Atom(c));
    AtomWritten(c);
  }

  /** A right operand is written in parentheses exactly when it is looser than the operator it stands at or on its
      rung, but for a `**` at a `**`. */
  lemma RightOperand(outer: Tok, inner: Tok, a: string, b: string, c: string)
    requires Infix(inner) && Infix(outer)
    ensures Written(Join(outer, Atom(a), Join(inner, Atom(b), Atom(c))), 0) ==
      if Looser(PRINTED, inner, outer) || (Alike(PRINTED, inner, outer) && !IsPow(outer))
      then [Name(a), outer, LParen, Name(b), inner, Name(c), RParen]
      else [Name(a), outer, Name(b), inner, Name(c)]
  {
    FormatterNumbers(inner);
    FormatterNumbers(outer);
    HeightsCompare(FORMATTER, PRINTED, inner, outer);
    var p := Height(FORMATTER, outer) + 1;
    OperandWritten(inner, b, c, if IsPow(outer) then p else p + 1);
    JoinWritten(outer, Atom(a), Join(inner, Atom(b), Atom(c)));
    AtomWritten(a);
  }

  /** Tokens without an opening parenthesis hold no type arguments of a call. */
  lemma NoCallNoCommit(ns: Names, ts: seq<Tok>)
    requires LParen !in ts
    ensures Quiet(CommitsIn(ns), ts)
  {
    forall i | 0 <= i <= |ts| ensures QuietAt(CommitsIn(ns), ts, i) {
      assert forall k :: 0 <= k < |ts| - i ==> ts[i..][k] in ts;
    }
  }

  lemma ParsesAs(ns: Names, ts: seq<Tok>, e: Expr)
    requires LParen !in ts && Raw(e) == ts
    ensures Parse(PARSER, CommitsIn(ns), ts) == Got(e, []) <==> Canonical(PARSER, e)
  {
    TablesValid();
    CommitsAtLess(ns);
    NoCallNoCommit(ns, ts);
    ParseExactly(PARSER, CommitsIn(ns), ts, e);
  }

  lemma JoinCanonical(tok: Tok, l: Expr, r: Expr)
    requires Infix(tok) && Canonical(PARSER, l) && Canonical(PARSER, r)
    ensures var p := Height(PARSER, tok) + 1;
      Canonical(PARSER, Join(tok, l, r)) <==>
        && Prec(PARSER, l) >= (if IsPow(tok) || tok.DotDot? then p + 1 else p)
        && Prec(PARSER, r) >= (if IsPow(tok) then p else p + 1)
    ensures Prec(PARSER, Join(tok, l, r)) == Height(PARSER, tok) + 1
  {
  }

  /** The looser tiers leave a `..` where it stands. */
  lemma {:induction false} LooserTiersPass(ts: seq<Tok>, e: Expr, rest: seq<Tok>, k: nat)
    requires 1 <= k <= RANGE && rest != [] && rest[0].DotDot? && Tier(PARSER, NEVER, RANGE, ts) == Got(e, rest)
    ensures Tier(PARSER, NEVER, k, ts) == Got(e, rest)
    decreases RANGE - k
  {
    if k < RANGE {
      LooserTiersPass(ts, e, rest, k + 1);
    }
  }

  lemma TwoRangesStick(ns: Names, s: Tok, t: Tok, a: string, b: string, c: string)
    requires s.DotDot? && t.DotDot?
    ensures Parse(PARSER, CommitsIn(ns), [Name(a), s, Name(b), t, Name(c)]) == Stuck
  {
    TablesValid();
    var ts, more, rest := [Name(a), s, Name(b), t, Name(c)], [s, Name(b), t, Name(c)], [t, Name(c)];
    NoCallNoCommit(ns, ts);
    TierSame(PARSER, CommitsIn(ns), 1, ts);
    assert ts == Raw(Atom(a)) + more && more[1..] == Raw(Atom(b)) + rest;
    TierReads(PARSER, RANGE + 1, Atom(a), more);
    TierReads(PARSER, RANGE + 1, Atom(b), rest);
    LooserTiersPass(ts, Range(Atom(a), Atom(b), s.inclusive), rest, 1);
  }

  lemma RightTree(ns: Names, s: Tok, t: Tok, a: string, b: string, c: string)
    requires Infix(s) && Infix(t)
    ensures Parse(PARSER, CommitsIn(ns), [Name(a), s, Name(b), t, Name(c)]) == Got(Join(s, Atom(a), Join(t, Atom(b), Atom(c))), [])
      <==> Height(PARSER, s) < Height(PARSER, t) || (IsPow(s) && IsPow(t))
  {
    ParserNumbers(s);
    ParserNumbers(t);
    JoinCanonical(t, Atom(b), Atom(c));
    JoinCanonical(s, Atom(a), Join(t, Atom(b), Atom(c)));
    PairsRaw(s, t, a, b, c);
    ParsesAs(ns, [Name(a), s, Name(b), t, Name(c)], Join(s, Atom(a), Join(t, Atom(b), Atom(c))));
  }

  lemma LeftTree(ns: Names, s: Tok, t: Tok, a: string, b: string, c: string)
    requires Infix(s) && Infix(t)
    ensures Parse(PARSER, CommitsIn(ns), [Name(a), s, Name(b), t, Name(c)]) == Got(Join(t, Join(s, Atom(a), Atom(b)), Atom(c)), [])
      <==> Height(PARSER, t) <= Height(PARSER, s) && !(IsPow(s) && IsPow(t)) && !(s.DotDot? && t.DotDot?)
  {
    ParserNumbers(s);
    ParserNumbers(t);
    JoinCanonical(s, Atom(a), Atom(b));
    JoinCanonical(t, Join(s, Atom(a), Atom(b)), Atom(c));
    PairsRaw(s, t, a, b, c);
    ParsesAs(ns, [Name(a), s, Name(b), t, Name(c)], Join(t, Join(s, Atom(a), Atom(b)), Atom(c)));
  }

  /** What `a s b t c` parses to: the tighter operator takes `b`, on one rung the left one, and of two `**` the
      right one. Two ranges in a row do not parse. */
  lemma TwoInARow(ns: Names, s: Tok, t: Tok, a: string, b: string, c: string)
    requires Infix(s) && Infix(t)
    ensures Parse(PARSER, CommitsIn(ns), [Name(a), s, Name(b), t, Name(c)]) ==
      if Looser(LADDER, s, t) || (IsPow(s) && IsPow(t)) then Got(Join(s, Atom(a), Join(t, Atom(b), Atom(c))), [])
      else if s.DotDot? && t.DotDot? then Stuck
      else Got(Join(t, Join(s, Atom(a), Atom(b)), Atom(c)), [])
  {
    ParserNumbers(s);
    ParserNumbers(t);
    HeightsCompare(PARSER, LADDER, s, t);
    RightTree(ns, s, t, a, b, c);
    LeftTree(ns, s, t, a, b, c);
    if s.DotDot? && t.DotDot? {
      TwoRangesStick(ns, s, t, a, b, c);
    }
  }

  lemma PairsRaw(s: Tok, t: Tok, a: string, b: string, c: string)
    requires Infix(s) && Infix(t)
    ensures Raw(Join(s, Atom(a), Join(t, Atom(b), Atom(c)))) == [Name(a), s, Name(b), t, Name(c)]
    ensures Raw(Join(t, Join(s, Atom(a), Atom(b)), Atom(c))) == [Name(a), s, Name(b), t, Name(c)]
  {
    assert Raw(Join(s, Atom(a), Atom(b))) == [Name(a), s, Name(b)];
    assert Raw(Join(t, Atom(b), Atom(c))) == [Name(b), t, Name(c)];
    var left, right := Join(t, Join(s, Atom(a), Atom(b)), Atom(c)), Join(s, Atom(a), Join(t, Atom(b), Atom(c)));
    assert Raw(left) == Raw(Join(s, Atom(a), Atom(b))) + [t] + Raw(Atom(c));
    assert Raw(right) == Raw(Atom(a)) + [s] + Raw(Join(t, Atom(b), Atom(c)));
  }

  // ----- prefix operators and what follows an operand bind tighter than all of them -----

  /** The token a prefix operator is. */
  function Sign(u: UnOp): Tok {
    match u
    case Neg => Op(Sub)
    case Not => Bang
    case BitNot => Tilde
  }

  /** A prefix operator takes its operand alone: `-a + b` is `(-a) + b`, and the other tree needs parentheses. */
  lemma PrefixBinds(ns: Names, u: UnOp, t: Tok, a: string, b: string)
    requires Infix(t)
    ensures var first, whole := Join(t, Unary(u, Atom(a)), Atom(b)), Unary(u, Join(t, Atom(a), Atom(b)));
      && Written(first, 0) == [Sign(u), Name(a), t, Name(b)]
      && Written(whole, 0) == [Sign(u), LParen, Name(a), t, Name(b), RParen]
      && Parse(PARSER, CommitsIn(ns), [Sign(u), Name(a), t, Name(b)]) == Got(first, [])
  {
    PrefixWritten(u, t, a, b);
    ParserNumbers(t);
    var x := Unary(u, Atom(a));
    JoinCanonical(t, x, Atom(b));
    assert Raw(x) == [Sign(u), Name(a)];
    assert Raw(Join(t, x, Atom(b))) == Raw(x) + [t] + Raw(Atom(b));
    ParsesAs(ns, [Sign(u), Name(a), t, Name(b)], Join(t, x, Atom(b)));
  }

  lemma PrefixWritten(u: UnOp, t: Tok, a: string, b: string)
    requires Infix(t)
    ensures Written(Join(t, Unary(u, Atom(a)), Atom(b)), 0) == [Sign(u), Name(a), t, Name(b)]
    ensures Written(Unary(u, Join(t, Atom(a), Atom(b))), 0) == [Sign(u), LParen, Name(a), t, Name(b), RParen]
  {
    var x, pair := Unary(u, Atom(a)), Join(t, Atom(a), Atom(b));
    AtomWritten(a);
    AtomWritten(b);
    JoinWritten(t, x, Atom(b));
    FormatterNumbers(t);
    OperandWritten(t, a, b, UNARY);
    assert WrittenInner(x) == [Sign(u), Name(a)];
    assert WrittenInner(Unary(u, pair)) == [Sign(u)] + Written(pair, UNARY);
  }

  /** A member access or an index takes the operand before it alone: `-a.f` is `-(a.f)` and `a + b.f` is `a + (b.f)`;
      the other trees need parentheses. */
  lemma PostfixBinds(ns: Names, u: UnOp, t: Tok, a: string, b: string, f: string)
    requires Infix(t)
    ensures Written(Member(Unary(u, Atom(a)), f), 0) == [LParen, Sign(u), Name(a), RParen, Dot, Name(f)]
    ensures Written(Member(Join(t, Atom(a), Atom(b)), f), 0) == [LParen, Name(a), t, Name(b), RParen, Dot, Name(f)]
    ensures Written(Index(Unary(u, Atom(a)), Atom(f)), 0) == [LParen, Sign(u), Name(a), RParen, LBracket, Name(f), RBracket]
    ensures Written(Index(Atom(f), Join(t, Atom(a), Atom(b))), 0) == [Name(f), LBracket, Name(a), t, Name(b), RBracket]
    ensures Parse(PARSER, CommitsIn(ns), [Sign(u), Name(a), Dot, Name(f)]) == Got(Unary(u, Member(Atom(a), f)), [])
    ensures Parse(PARSER, CommitsIn(ns), [Name(a), t, Name(b), Dot, Name(f)]) == Got(Join(t, Atom(a), Member(Atom(b), f)), [])
  {
    PostfixWritten(u, t, a, b, f);
    ParserNumbers(t);
    var m := Member(Atom(b), f);
    JoinCanonical(t, Atom(a), m);
    assert Raw(m) == [Name(b), Dot, Name(f)];
    assert Raw(Join(t, Atom(a), m)) == Raw(Atom(a)) + [t] + Raw(m);
    ParsesAs(ns, [Name(a), t, Name(b), Dot, Name(f)], Join(t, Atom(a), m));
    assert Raw(Member(Atom(a), f)) == [Name(a), Dot, Name(f)];
    assert Raw(Unary(u, Member(Atom(a), f))) == [Sign(u)] + Raw(Member(Atom(a), f));
    ParsesAs(ns, [Sign(u), Name(a), Dot, Name(f)], Unary(u, Member(Atom(a), f)));
  }

  lemma PostfixWritten(u: UnOp, t: Tok, a: string, b: string, f: string)
    requires Infix(t)
    ensures Written(Member(Unary(u, Atom(a)), f), 0) == [LParen, Sign(u), Name(a), RParen, Dot, Name(f)]
    ensures Written(Member(Join(t, Atom(a), Atom(b)), f), 0) == [LParen, Name(a), t, Name(b), RParen, Dot, Name(f)]
    ensures Written(Index(Unary(u, Atom(a)), Atom(f)), 0) == [LParen, Sign(u), Name(a), RParen, LBracket, Name(f), RBracket]
    ensures Written(Index(Atom(f), Join(t, Atom(a), Atom(b))), 0) == [Name(f), LBracket, Name(a), t, Name(b), RBracket]
  {
    AtomWritten(a);
    AtomWritten(f);
    var x, pair := Unary(u, Atom(a)), Join(t, Atom(a), Atom(b));
    assert WrittenInner(x) == [Sign(u), Name(a)];
    FormatterNumbers(t);
    OperandWritten(t, a, b, POSTFIX);
    OperandWritten(t, a, b, 0);
    assert Written(x, POSTFIX) == [LParen, Sign(u), Name(a), RParen];
    assert Written(pair, POSTFIX) == [LParen, Name(a), t, Name(b), RParen];
    assert Written(pair, 0) == [Name(a), t, Name(b)];
    assert WrittenInner(Member(x, f)) == Written(x, POSTFIX) + [Dot, Name(f)];
    assert WrittenInner(Member(pair, f)) == Written(pair, POSTFIX) + [Dot, Name(f)];
    assert WrittenInner(Index(x, Atom(f))) == Written(x, POSTFIX) + [LBracket] + Written(Atom(f), 0) + [RBracket];
    assert WrittenInner(Index(Atom(f), pair)) == Written(Atom(f), POSTFIX) + [LBracket] + Written(pair, 0) + [RBracket];
  }
}
