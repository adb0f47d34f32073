/** The formatter's expression writer: parentheses from a precedence floor, and what its output
    reads back as, by its own table and by the parser's tiers and its type-argument speculation. */
module Printer {
  import opened Wrappers
  import opened Syntax
  import opened Reader
  import opened TypeArguments

  /** The formatter's precedence of an operator. */
  function BinPrec(op: BinOp): nat {
    match op
    case Or => 1
    case And => 2
    case Coalesce => 3
    case Eq | Ne => 4
    case Lt | Le | Gt | Ge | InstanceOf => 5
    case BitOr | BitXor => 6
    case Add | Sub | WrapAdd | WrapSub => 8
    case Mul | Div | Mod | WrapMul | Shl | Shr | BitAnd => 9
    case Pow => 10
  }

  /** The parser's tiers, from the function for `??` down to the one for `**`. */
  function ParserTier(op: BinOp): nat {
    match op
    case Coalesce => 1
    case Or => 2
    case And => 3
    case Eq | Ne => 4
    case Lt | Le | Gt | Ge | InstanceOf => 5
    case BitOr | BitXor => 6
    case Add | Sub | WrapAdd | WrapSub => 8
    case Mul | Div | Mod | WrapMul | Shl | Shr | BitAnd => 9
    case Pow => 10
  }

  const FORMATTER: Table := Table(BinPrec, true)
  const PARSER: Table := Table(ParserTier, false)

  lemma TablesValid()
    ensures FORMATTER.Valid() && PARSER.Valid()
  {
  }

  function ExprPrec(e: Expr): nat {
    Prec(FORMATTER, e)
  }

  // ----- what is written -----

  function Written(e: Expr, minPrec: nat): seq<Tok>
    decreases e, 1
  {
    if ExprPrec(e) < minPrec then [LParen] + WrittenInner(e) + [RParen] else WrittenInner(e)
  }

  function WrittenInner(e: Expr): seq<Tok>
    decreases e, 0
  {
    match e
    case Atom(n) => [Name(n)]
    case Unary(u, x) => [UnTok(u)] + Written(x, UNARY)
    case Binary(op, l, r) =>
      var p := BinPrec(op);
      var (lp, rp) := if op == Pow then (p + 1, p) else (p, p + 1);
      Written(l, lp) + [Op(op)] + Written(r, rp)
    case Range(a, b, i) => Written(a, RANGE) + [DotDot(i)] + Written(b, RANGE + 1)
    case Index(o, i) => Written(o, POSTFIX) + [LBracket] + Written(i, 0) + [RBracket]
    case Member(o, f) => Written(o, POSTFIX) + [Dot, Name(f)]
    case Paren(x) => [LParen] + WrittenInner(x) + [RParen]
  }

  lemma Enclosing(out: seq<Tok>, inner: seq<Tok>)
    ensures out + [LParen] + inner + [RParen] == out + ([LParen] + inner + [RParen])
  {
  }

  lemma Around(out: seq<Tok>, l: seq<Tok>, middle: Tok, r: seq<Tok>)
    ensures out + l + [middle] + r == out + (l + [middle] + r)
  {
  }

  /** The output buffer the writer appends to. */
  class Output {
    var toks: seq<Tok>

    constructor ()
      ensures toks == []
    {
      toks := [];
    }

    method Push(t: Tok)
      modifies this
      ensures toks == old(toks) + [t]
    {
      toks := toks + [t];
    }

    method WriteExpr(e: Expr, minPrec: nat)
      modifies this
      ensures toks == old(toks) + Written(e, minPrec)
      decreases e, 2
    {
      if ExprPrec(e) < minPrec {
        Push(LParen);
        WriteExprInner(e);
        Push(RParen);
        Enclosing(old(toks), WrittenInner(e));
      } else {
        WriteExprInner(e);
      }
    }

    method WriteExprInner(e: Expr)
      modifies this
      ensures toks == old(toks) + WrittenInner(e)
      decreases e, 1
    {
      match e {
        case Atom(n) =>
          Push(Name(n));
        case Unary(u, x) =>
          Push(UnTok(u));
          WriteExpr(x, UNARY);
          assert toks == old(toks) + ([UnTok(u)] + Written(x, UNARY));
        case Binary(op, l, r) =>
          WriteBinary(e);
        case Range(a, b, i) =>
          WriteAround(a, RANGE, DotDot(i), b, RANGE + 1, e);
        case Index(o, i) =>
          WriteAround(o, POSTFIX, LBracket, i, 0, e);
          Push(RBracket);
        case Member(o, f) =>
          WriteExpr(o, POSTFIX);
          Push(Dot);
          Push(Name(f));
          assert toks == old(toks) + (Written(o, POSTFIX) + [Dot, Name(f)]);
        case Paren(x) =>
          Push(LParen);
          WriteExprInner(x);
          Push(RParen);
          Enclosing(old(toks), WrittenInner(x));
      }
    }

    method WriteBinary(e: Expr)
      requires e.Binary?
      modifies this
      ensures toks == old(toks) + WrittenInner(e)
      decreases e, 0, 1
    {
      var p := BinPrec(e.op);
      // Left-associative, except `**`.
      var lp, rp := p, p + 1;
      if e.op == Pow {
        lp, rp := p + 1, p;
      }
      WriteAround(e.lhs, lp, Op(e.op), e.rhs, rp, e);
    }

    method WriteAround(l: Expr, lp: nat, middle: Tok, r: Expr, rp: nat, ghost whole: Expr)
      requires l < whole && r < whole
      modifies this
      ensures toks == old(toks) + (Written(l, lp) + [middle] + Written(r, rp))
      decreases whole, 0, 0
    {
      WriteExpr(l, lp);
      Push(middle);
      WriteExpr(r, rp);
      Around(old(toks), Written(l, lp), middle, Written(r, rp));
    }
  }

  // ----- the tree the output spells -----

  /** `e` with a paren node wherever the writer puts parentheses. */
  function Fixed(e: Expr, minPrec: nat): Expr
    decreases e, 1
  {
    if ExprPrec(e) < minPrec then Paren(FixedInner(e)) else FixedInner(e)
  }

  function FixedInner(e: Expr): Expr
    decreases e, 0
  {
    match e
    case Atom(_) => e
    case Unary(u, x) => Unary(u, Fixed(x, UNARY))
    case Binary(op, l, r) => Binary(op, Fixed(l, LeftMin(FORMATTER, op)), Fixed(r, RightMin(FORMATTER, op)))
    case Range(a, b, i) => Range(Fixed(a, RANGE), Fixed(b, RANGE + 1), i)
    case Index(o, i) => Index(Fixed(o, POSTFIX), Fixed(i, 0))
    case Member(o, f) => Member(Fixed(o, POSTFIX), f)
    case Paren(x) => Paren(FixedInner(x))
  }

  lemma {:induction false} FixedInnerSpells(e: Expr)
    ensures Raw(FixedInner(e)) == WrittenInner(e)
    ensures Strip(FixedInner(e)) == Strip(e)
    ensures Prec(FORMATTER, FixedInner(e)) == ExprPrec(e) && Canonical(FORMATTER, FixedInner(e))
    decreases e, 0
  {
    match e {
      case Atom(_) =>
      case Unary(u, x) => FixedSpells(x, UNARY);
      case Binary(op, l, r) =>
        FixedSpells(l, LeftMin(FORMATTER, op));
        FixedSpells(r, RightMin(FORMATTER, op));
      case Range(a, b, i) =>
        FixedSpells(a, RANGE);
        FixedSpells(b, RANGE + 1);
      case Index(o, i) =>
        FixedSpells(o, POSTFIX);
        FixedSpells(i, 0);
      case Member(o, f) => FixedSpells(o, POSTFIX);
      case Paren(x) => FixedInnerSpells(x);
    }
  }

  /** The output spells a canonical tree that differs from `e` in paren nodes only. */
  lemma {:induction false} FixedSpells(e: Expr, minPrec: nat)
    requires minPrec <= ATOM
    ensures Raw(Fixed(e, minPrec)) == Written(e, minPrec)
    ensures Strip(Fixed(e, minPrec)) == Strip(e)
    ensures Prec(FORMATTER, Fixed(e, minPrec)) >= minPrec && Canonical(FORMATTER, Fixed(e, minPrec))
    decreases e, 1
  {
    FixedInnerSpells(e);
  }

  /** A tree that needs no parentheses is written as it stands. */
  lemma {:induction false} CanonicalIsFixed(e: Expr)
    requires Canonical(FORMATTER, e)
    ensures FixedInner(e) == e
  {
    match e {
      case Atom(_) =>
      case Unary(_, x) => CanonicalIsFixed(x);
      case Binary(_, l, r) => CanonicalIsFixed(l); CanonicalIsFixed(r);
      case Range(a, b, _) => CanonicalIsFixed(a); CanonicalIsFixed(b);
      case Index(o, i) => CanonicalIsFixed(o); CanonicalIsFixed(i);
      case Member(o, _) => CanonicalIsFixed(o);
      case Paren(x) => CanonicalIsFixed(x);
    }
  }

  lemma NeverQuiet(ts: seq<Tok>)
    ensures Quiet(NEVER, ts)
  {
  }

  /** By its own table the formatter is faithful: what it writes for any tree reads back as that
      tree up to paren nodes, and writing the tree read back gives the same tokens. */
  lemma WriterRoundTrips(e: Expr)
    ensures var r := Parse(FORMATTER, NEVER, Written(e, 0));
            && r.Got? && Strip(r.e) == Strip(e)
            && Written(r.e, 0) == Written(e, 0)
  {
    TablesValid();
    FixedSpells(e, 0);
    NeverQuiet(Written(e, 0));
    ParseExactly(FORMATTER, NEVER, Written(e, 0), Fixed(e, 0));
    CanonicalIsFixed(Fixed(e, 0));
    FixedSpells(Fixed(e, 0), 0);
  }

  // ----- against the parser's own tiers -----

  /** No `??` stands bare as an operand of `||` or `&&`, and no range bare as a range's start. */
  predicate Readable(e: Expr) {
    match e
    case Atom(_) => true
    case Unary(_, x) => Readable(x)
    case Binary(op, l, r) =>
      && (op == Or || op == And ==> !IsCoalesce(l) && !IsCoalesce(r))
      && Readable(l) && Readable(r)
    case Range(a, b, _) => !a.Range? && Readable(a) && Readable(b)
    case Index(o, i) => Readable(o) && Readable(i)
    case Member(o, _) => Readable(o)
    case Paren(x) => Readable(x)
  }

  predicate IsCoalesce(e: Expr) {
    e.Binary? && e.op == Coalesce
  }

  /** A side of a binary operator stands as the parser's tiers ask, but for `??` under `||` or
      `&&`: the one place where the two tables order operators differently. */
  lemma TiersDiffer(op: BinOp)
    ensures op == Or || op == And || op == Coalesce <==> BinPrec(op) < 4
    ensures BinPrec(op) >= 4 ==> ParserTier(op) == BinPrec(op)
  {
  }

  lemma LeftStands(op: BinOp, l: Expr)
    ensures Prec(PARSER, Fixed(l, LeftMin(FORMATTER, op))) >= LeftMin(PARSER, op)
       <==> !((op == Or || op == And) && IsCoalesce(l))
  {
    PrecOfFixed(l, LeftMin(FORMATTER, op));
    TiersDiffer(op);
    if l.Binary? { TiersDiffer(l.op); }
  }

  lemma RightStands(op: BinOp, r: Expr)
    ensures Prec(PARSER, Fixed(r, RightMin(FORMATTER, op))) >= RightMin(PARSER, op)
       <==> !((op == Or || op == And) && IsCoalesce(r))
  {
    PrecOfFixed(r, RightMin(FORMATTER, op));
    TiersDiffer(op);
    if r.Binary? { TiersDiffer(r.op); }
  }

  lemma PrecOfFixed(e: Expr, minPrec: nat)
    ensures Prec(PARSER, Fixed(e, minPrec)) == if ExprPrec(e) < minPrec then ATOM else Prec(PARSER, e)
    ensures Canonical(PARSER, Fixed(e, minPrec)) == Canonical(PARSER, FixedInner(e))
  {
  }

  lemma ReadableBinary(op: BinOp, l: Expr, r: Expr)
    requires Canonical(PARSER, FixedInner(l)) <==> Readable(l)
    requires Canonical(PARSER, FixedInner(r)) <==> Readable(r)
    ensures Canonical(PARSER, FixedInner(Binary(op, l, r))) <==> Readable(Binary(op, l, r))
  {
    PrecOfFixed(l, LeftMin(FORMATTER, op));
    PrecOfFixed(r, RightMin(FORMATTER, op));
    LeftStands(op, l);
    RightStands(op, r);
  }

  lemma ReadableRange(e: Expr)
    requires e.Range?
    requires Canonical(PARSER, FixedInner(e.start)) <==> Readable(e.start)
    requires Canonical(PARSER, FixedInner(e.end)) <==> Readable(e.end)
    ensures Canonical(PARSER, FixedInner(e)) <==> Readable(e)
  {
    PrecOfFixed(e.start, RANGE);
    PrecOfFixed(e.end, RANGE + 1);
  }

  lemma ReadableIndex(e: Expr)
    requires e.Index?
    requires Canonical(PARSER, FixedInner(e.object_)) <==> Readable(e.object_)
    requires Canonical(PARSER, FixedInner(e.index)) <==> Readable(e.index)
    ensures Canonical(PARSER, FixedInner(e)) <==> Readable(e)
  {
    PrecOfFixed(e.object_, POSTFIX);
    PrecOfFixed(e.index, 0);
  }

  lemma {:induction false} ReadableIsCanonical(e: Expr)
    ensures Canonical(PARSER, FixedInner(e)) <==> Readable(e)
  {
    match e {
      case Atom(_) =>
      case Unary(_, x) =>
        ReadableIsCanonical(x);
        PrecOfFixed(x, UNARY);
      case Binary(op, l, r) =>
        ReadableIsCanonical(l);
        ReadableIsCanonical(r);
        ReadableBinary(op, l, r);
      case Range(a, b, _) =>
        ReadableIsCanonical(a);
        ReadableIsCanonical(b);
        ReadableRange(e);
      case Index(o, i) =>
        ReadableIsCanonical(o);
        ReadableIsCanonical(i);
        ReadableIndex(e);
      case Member(o, _) =>
        ReadableIsCanonical(o);
        PrecOfFixed(o, POSTFIX);
      case Paren(x) => ReadableIsCanonical(x);
    }
  }

  lemma CommitsAtLess(ns: Names)
    ensures AtLess(CommitsIn(ns))
  {
  }

  /** The formatter's output means the same to the parser exactly for the readable trees in whose output
      no `<` opens what the parser takes for the type arguments of a call. */
  lemma ParserRoundTrips(ns: Names, e: Expr)
    ensures var r := Parse(PARSER, CommitsIn(ns), Written(e, 0));
            r.Got? && Strip(r.e) == Strip(e) <==> Readable(e) && Quiet(CommitsIn(ns), Written(e, 0))
  {
    TablesValid();
    CommitsAtLess(ns);
    FixedSpells(e, 0);
    ReadableIsCanonical(e);
    var ts, f := Written(e, 0), Fixed(e, 0);
    ParseExactly(PARSER, CommitsIn(ns), ts, f);
    var r := Parse(PARSER, CommitsIn(ns), ts);
    if r.Got? {
      ParseExactly(PARSER, CommitsIn(ns), ts, r.e);
      if Strip(r.e) == Strip(e) {
        UniquelyParenthesised(r.e, f);
      }
    }
  }

  /** A tree the formatter's output changes: `(a < b) > (c)` is written as `a < b > (c)`, which the parser
      reads as a call of `a` with the type argument `b`, whenever `b` can name a type. */
  lemma ComparisonReadsAsCall(ns: Names, a: string, b: string, c: string)
    requires ns(b) == Bare || ns(b) == User
    ensures var e := Binary(Gt, Binary(Lt, Atom(a), Atom(b)), Paren(Atom(c)));
            Readable(e) && Parse(PARSER, CommitsIn(ns), Written(e, 0)) == Stuck
  {
    ChainIsStuck(ns, a, b, c);
  }

  lemma ChainIsStuck(ns: Names, a: string, b: string, c: string)
    requires ns(b) == Bare || ns(b) == User
    ensures Parse(PARSER, CommitsIn(ns), Written(Binary(Gt, Binary(Lt, Atom(a), Atom(b)), Paren(Atom(c))), 0)) == Stuck
  {
    var ts := Written(Binary(Gt, Binary(Lt, Atom(a), Atom(b)), Paren(Atom(c))), 0);
    ChainWritten(a, b, c);
    ChainCommits(ns, a, b, c);
    LoudIsStuck(ns, ts);
  }

  lemma ChainCommits(ns: Names, a: string, b: string, c: string)
    requires ns(b) == Bare || ns(b) == User
    ensures !Quiet(CommitsIn(ns), [Name(a), Op(Lt), Name(b), Op(Gt), LParen, Name(c), RParen])
  {
    var ts := [Name(a), Op(Lt), Name(b), Op(Gt), LParen, Name(c), RParen];
    TypeCommits(ns, b, [Name(c), RParen]);
    assert ts[1..] == [Op(Lt), Name(b), Op(Gt), LParen] + [Name(c), RParen];
    assert !QuietAt(CommitsIn(ns), ts, 1);
  }

  lemma LoudIsStuck(ns: Names, ts: seq<Tok>)
    requires !Quiet(CommitsIn(ns), ts)
    ensures Parse(PARSER, CommitsIn(ns), ts) == Stuck
  {
    TablesValid();
    CommitsAtLess(ns);
    var r := Parse(PARSER, CommitsIn(ns), ts);
    if r.Got? {
      ParseExactly(PARSER, CommitsIn(ns), ts, r.e);
    }
  }

  lemma ChainWritten(a: string, b: string, c: string)
    ensures Written(Binary(Gt, Binary(Lt, Atom(a), Atom(b)), Paren(Atom(c))), 0)
         == [Name(a), Op(Lt), Name(b), Op(Gt), LParen, Name(c), RParen]
  {
    var l := Binary(Lt, Atom(a), Atom(b));
    AtomWritten(a);
    AtomWritten(b);
    assert WrittenInner(l) == Written(Atom(a), 5) + [Op(Lt)] + Written(Atom(b), 6);
    assert Written(l, 5) == WrittenInner(l);
    var p := Paren(Atom(c));
    assert WrittenInner(Atom(c)) == [Name(c)];
    assert WrittenInner(p) == [LParen] + [Name(c)] + [RParen];
    assert Written(p, 6) == WrittenInner(p);
    assert WrittenInner(Binary(Gt, l, p)) == Written(l, 5) + [Op(Gt)] + Written(p, 6);
  }

  lemma TypeCommits(ns: Names, b: string, after: seq<Tok>)
    requires ns(b) == Bare || ns(b) == User
    ensures Committed(ns, [Op(Lt), Name(b), Op(Gt), LParen] + after)
  {
    var us := [Op(Lt), Name(b), Op(Gt), LParen] + after;
    assert us[1] == Name(b) && us[2] == Op(Gt) && us[3] == LParen;
    assert TypeAtom(ns, us, 1, 0) == Some((2, 0));
    assert Type(ns, us, 1, 0) == Some((2, 0));
  }

  lemma LooserOutside(t: Table, outer: BinOp, a: Expr, inner: BinOp, b: Expr, c: Expr)
    requires t.tier(outer) < t.tier(inner) <= UNARY && outer != Pow
    requires a.Atom? && b.Atom? && c.Atom?
    ensures Canonical(t, Binary(outer, a, Binary(inner, b, c)))
  {
    var r := Binary(inner, b, c);
    assert Prec(t, b) == ATOM && Prec(t, c) == ATOM && Prec(t, a) == ATOM && Prec(t, r) == t.tier(inner);
    assert Canonical(t, b) && Canonical(t, c) && Canonical(t, a);
    assert Canonical(t, r);
  }

  lemma AtomWritten(n: string)
    ensures forall k: nat :: k <= ATOM ==> Written(Atom(n), k) == [Name(n)]
  {
  }

  /** A tree the formatter's output changes: `(a ?? b) || c` without its parentheses is written
      as `a ?? b || c`, which the parser reads as `a ?? (b || c)`. */
  lemma CoalesceUnderOrIsMoved(ns: Names, a: string, b: string, c: string)
    ensures Parse(PARSER, CommitsIn(ns), Written(Binary(Or, Binary(Coalesce, Atom(a), Atom(b)), Atom(c)), 0))
         == Got(Binary(Coalesce, Atom(a), Binary(Or, Atom(b), Atom(c))), [])
  {
    TablesValid();
    var l := Binary(Coalesce, Atom(a), Atom(b));
    AtomWritten(a);
    AtomWritten(b);
    AtomWritten(c);
    assert WrittenInner(l) == Written(Atom(a), 3) + [Op(Coalesce)] + Written(Atom(b), 4);
    assert Written(l, 1) == WrittenInner(l);
    assert WrittenInner(Binary(Or, l, Atom(c))) == Written(l, 1) + [Op(Or)] + Written(Atom(c), 2);
    var ts := [Name(a), Op(Coalesce), Name(b), Op(Or), Name(c)];
    assert Written(Binary(Or, l, Atom(c)), 0) == ts;
    var r := Binary(Or, Atom(b), Atom(c));
    assert Raw(r) == [Name(b), Op(Or), Name(c)];
    var read := Binary(Coalesce, Atom(a), r);
    assert Raw(read) == Raw(Atom(a)) + [Op(Coalesce)] + Raw(r) == ts;
    LooserOutside(PARSER, Coalesce, Atom(a), Or, Atom(b), Atom(c));
    forall i | 0 <= i <= |ts| ensures QuietAt(CommitsIn(ns), ts, i) {
      assert i < |ts| ==> ts[i..][0] == ts[i];
    }
    CommitsAtLess(ns);
    ParseExactly(PARSER, CommitsIn(ns), ts, Binary(Coalesce, Atom(a), r));
  }

  lemma {:induction false} ParsedIsReadable(e: Expr)
    requires Canonical(PARSER, e)
    ensures Readable(e)
  {
    match e {
      case Atom(_) =>
      case Unary(_, x) => ParsedIsReadable(x);
      case Binary(_, l, r) => ParsedIsReadable(l); ParsedIsReadable(r);
      case Range(a, b, _) => ParsedIsReadable(a); ParsedIsReadable(b);
      case Index(o, i) => ParsedIsReadable(o); ParsedIsReadable(i);
      case Member(o, _) => ParsedIsReadable(o);
      case Paren(x) => ParsedIsReadable(x);
    }
  }
}
