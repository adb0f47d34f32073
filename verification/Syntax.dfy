/** Expressions of the formatter's operator fragment, their tokens, and the two precedence
    tables: the one the formatter parenthesises by and the one the parser's tiers make. */
module Syntax {

  datatype UnOp = Neg | Not | BitNot

  datatype BinOp =
    | Or | And | Coalesce | Eq | Ne | Lt | Le | Gt | Ge | InstanceOf | BitOr | BitXor
    | Add | Sub | WrapAdd | WrapSub | Mul | Div | Mod | WrapMul | Shl | Shr | BitAnd | Pow

  /** An atom is any expression of a single token: a literal or a name. */
  datatype Expr =
    | Atom(name: string)
    | Unary(unop: UnOp, operand: Expr)
    | Binary(op: BinOp, lhs: Expr, rhs: Expr)
    | Range(start: Expr, end: Expr, inclusive: bool)
    | Index(object_: Expr, index: Expr)
    | Member(object_: Expr, field: string)
    | Paren(inner: Expr)

  /** A minus is one token whether it negates or subtracts. */
  datatype Tok =
    | Name(text: string)
    | Op(op: BinOp)
    | Bang
    | Tilde
    | DotDot(inclusive: bool)
    | Dot
    | LParen
    | RParen
    | LBracket
    | RBracket

  function UnTok(u: UnOp): Tok {
    match u
    case Neg => Op(Sub)
    case Not => Bang
    case BitNot => Tilde
  }

  const RANGE: nat := 7
  const POW: nat := 10
  const UNARY: nat := 11
  const POSTFIX: nat := 12
  const ATOM: nat := 13

  /** A precedence table: the tier of each operator, loosest 1, and whether ranges chain. */
  datatype Table = Table(tier: BinOp -> nat, rangesChain: bool)
  {
    /** Tiers 1 to 9 hold the left-associative operators, none of them on the range tier;
        tier 10 is `**` alone. */
    ghost predicate Valid() {
      forall op :: 1 <= tier(op) <= POW && tier(op) != RANGE && (tier(op) == POW <==> op == Pow)
    }
  }

  /** How tightly an expression binds as a whole. */
  function Prec(t: Table, e: Expr): nat {
    match e
    case Binary(op, _, _) => t.tier(op)
    case Range(_, _, _) => RANGE
    case Unary(_, _) => UNARY
    case Index(_, _) => POSTFIX
    case Member(_, _) => POSTFIX
    case _ => ATOM
  }

  /** The least precedence each side of a binary operator may have without parentheses. */
  function LeftMin(t: Table, op: BinOp): nat {
    if op == Pow then t.tier(op) + 1 else t.tier(op)
  }

  function RightMin(t: Table, op: BinOp): nat {
    if op == Pow then t.tier(op) else t.tier(op) + 1
  }

  function StartMin(t: Table): nat {
    if t.rangesChain then RANGE else RANGE + 1
  }

  /** A tree whose tokens need no parentheses but those it has. */
  predicate Canonical(t: Table, e: Expr) {
    match e
    case Atom(_) => true
    case Unary(_, x) => Prec(t, x) >= UNARY && Canonical(t, x)
    case Binary(op, l, r) =>
      Prec(t, l) >= LeftMin(t, op) && Prec(t, r) >= RightMin(t, op) && Canonical(t, l) && Canonical(t, r)
    case Range(a, b, _) =>
      Prec(t, a) >= StartMin(t) && Prec(t, b) >= RANGE + 1 && Canonical(t, a) && Canonical(t, b)
    case Index(o, i) => Prec(t, o) >= POSTFIX && Canonical(t, o) && Canonical(t, i)
    case Member(o, _) => Prec(t, o) >= POSTFIX && Canonical(t, o)
    case Paren(x) => Canonical(t, x)
  }

  /** The tokens of a tree, parentheses exactly where it has a paren node. */
  function Raw(e: Expr): (ts: seq<Tok>)
    ensures |ts| > 0
  {
    match e
    case Atom(n) => [Name(n)]
    case Unary(u, x) => [UnTok(u)] + Raw(x)
    case Binary(op, l, r) => Raw(l) + [Op(op)] + Raw(r)
    case Range(a, b, i) => Raw(a) + [DotDot(i)] + Raw(b)
    case Index(o, i) => Raw(o) + [LBracket] + Raw(i) + [RBracket]
    case Member(o, f) => Raw(o) + [Dot, Name(f)]
    case Paren(x) => [LParen] + Raw(x) + [RParen]
  }

  /** The tree without its paren nodes. */
  function Strip(e: Expr): (s: Expr)
    ensures !s.Paren?
  {
    match e
    case Atom(_) => e
    case Unary(u, x) => Unary(u, Strip(x))
    case Binary(op, l, r) => Binary(op, Strip(l), Strip(r))
    case Range(a, b, i) => Range(Strip(a), Strip(b), i)
    case Index(o, i) => Index(Strip(o), Strip(i))
    case Member(o, f) => Member(Strip(o), f)
    case Paren(x) => Strip(x)
  }

  // ----- a tree is known by its tokens and its shape -----

  function Weight(t: Tok): nat {
    if t.LParen? || t.RParen? then 0 else 1
  }

  /** Tokens that are not parentheses. */
  function Weights(ts: seq<Tok>): nat {
    if ts == [] then 0 else Weights(ts[..|ts| - 1]) + Weight(ts[|ts| - 1])
  }

  /** Parentheses opened and not yet closed. */
  function Depth(ts: seq<Tok>): int {
    if ts == [] then 0
    else
      var t := ts[|ts| - 1];
      Depth(ts[..|ts| - 1]) + (if t.LParen? then 1 else if t.RParen? then -1 else 0)
  }

  lemma {:induction false} Measures(a: seq<Tok>, b: seq<Tok>)
    ensures Weights(a + b) == Weights(a) + Weights(b)
    ensures Depth(a + b) == Depth(a) + Depth(b)
  {
    if b == [] {
      assert a + b == a;
    } else {
      var n := |b| - 1;
      assert (a + b)[..|a + b| - 1] == a + b[..n];
      Measures(a, b[..n]);
    }
  }

  lemma One(t: Tok)
    ensures Weights([t]) == Weight(t)
    ensures Depth([t]) == if t.LParen? then 1 else if t.RParen? then -1 else 0
  {
    assert [t][..0] == [];
  }

  /** What a tree weighs depends on its shape alone. */
  function ShapeWeight(e: Expr): nat {
    match e
    case Atom(_) => 1
    case Unary(_, x) => 1 + ShapeWeight(x)
    case Binary(_, l, r) => ShapeWeight(l) + 1 + ShapeWeight(r)
    case Range(a, b, _) => ShapeWeight(a) + 1 + ShapeWeight(b)
    case Index(o, i) => ShapeWeight(o) + 1 + ShapeWeight(i) + 1
    case Member(o, _) => ShapeWeight(o) + 2
    case Paren(x) => ShapeWeight(x)
  }

  lemma {:induction false} StripWeight(e: Expr)
    ensures ShapeWeight(Strip(e)) == ShapeWeight(e)
  {
    match e {
      case Atom(_) =>
      case Unary(_, x) => StripWeight(x);
      case Binary(_, l, r) => StripWeight(l); StripWeight(r);
      case Range(a, b, _) => StripWeight(a); StripWeight(b);
      case Index(o, i) => StripWeight(o); StripWeight(i);
      case Member(o, _) => StripWeight(o);
      case Paren(x) => StripWeight(x);
    }
  }

  lemma Measured3(a: seq<Tok>, t: Tok, b: seq<Tok>)
    ensures Weights(a + [t] + b) == Weights(a) + Weight(t) + Weights(b)
    ensures Depth(a + [t] + b) == Depth(a) + Depth([t]) + Depth(b)
  {
    Measures(a + [t], b);
    Measures(a, [t]);
    One(t);
  }

  /** Parentheses balance, and the rest weighs `w`. */
  ghost predicate Balanced(ts: seq<Tok>, w: nat) {
    Weights(ts) == w && Depth(ts) == 0
  }

  lemma BalancedJoin(a: seq<Tok>, wa: nat, t: Tok, b: seq<Tok>, wb: nat)
    requires Balanced(a, wa) && Balanced(b, wb) && Weight(t) == 1
    ensures Balanced(a + [t] + b, wa + 1 + wb)
  {
    Measured3(a, t, b);
    One(t);
  }

  lemma BalancedSnoc(a: seq<Tok>, w: nat, t: Tok)
    requires Balanced(a, w) && Weight(t) == 1
    ensures Balanced(a + [t], w + 1)
  {
    Measures(a, [t]);
    One(t);
  }

  lemma BalancedParen(a: seq<Tok>, w: nat)
    requires Balanced(a, w)
    ensures Balanced([LParen] + a + [RParen], w)
  {
    Measures([LParen] + a, [RParen]);
    Measures([LParen], a);
    One(LParen);
    One(RParen);
  }

  /** A tree weighs what its shape weighs, and closes what it opens. */
  lemma {:induction false} RawMeasures(e: Expr)
    ensures Balanced(Raw(e), ShapeWeight(e))
  {
    match e {
      case Atom(n) =>
        One(Name(n));
      case Unary(u, x) =>
        RawMeasures(x);
        BalancedJoin([], 0, UnTok(u), Raw(x), ShapeWeight(x));
        assert [] + [UnTok(u)] + Raw(x) == Raw(e);
      case Binary(op, l, r) =>
        RawMeasures(l);
        RawMeasures(r);
        BalancedJoin(Raw(l), ShapeWeight(l), Op(op), Raw(r), ShapeWeight(r));
      case Range(a, b, i) =>
        RawMeasures(a);
        RawMeasures(b);
        BalancedJoin(Raw(a), ShapeWeight(a), DotDot(i), Raw(b), ShapeWeight(b));
      case Index(o, i) =>
        RawMeasures(o);
        RawMeasures(i);
        BalancedJoin(Raw(o), ShapeWeight(o), LBracket, Raw(i), ShapeWeight(i));
        BalancedSnoc(Raw(o) + [LBracket] + Raw(i), ShapeWeight(o) + 1 + ShapeWeight(i), RBracket);
      case Member(o, f) =>
        RawMeasures(o);
        BalancedSnoc(Raw(o), ShapeWeight(o), Dot);
        BalancedSnoc(Raw(o) + [Dot], ShapeWeight(o) + 1, Name(f));
        assert Raw(o) + [Dot] + [Name(f)] == Raw(e);
      case Paren(x) =>
        RawMeasures(x);
        BalancedParen(Raw(x), ShapeWeight(x));
    }
  }

  /** No prefix closes more than it opened. */
  ghost predicate NeverBelow(ts: seq<Tok>) {
    forall i :: 0 <= i <= |ts| ==> Depth(ts[..i]) >= 0
  }

  lemma Joined(a: seq<Tok>, t: Tok, b: seq<Tok>)
    requires NeverBelow(a) && Depth(a) == 0 && Weight(t) == 1 && NeverBelow(b)
    ensures NeverBelow(a + [t] + b)
  {
    var ts := a + [t] + b;
    forall i | 0 <= i <= |ts| ensures Depth(ts[..i]) >= 0 {
      if i <= |a| {
        assert ts[..i] == a[..i];
      } else {
        var j := i - |a| - 1;
        assert ts[..i] == a + [t] + b[..j];
        Measured3(a, t, b[..j]);
        One(t);
      }
    }
  }

  lemma Alone(t: Tok)
    requires Weight(t) == 1
    ensures NeverBelow([t]) && Depth([t]) == 0
  {
    One(t);
    assert [t][..0] == [] && [t][..1] == [t];
  }

  /** Between parentheses the depth is at least one until the last token. */
  lemma Enclosed(a: seq<Tok>)
    requires NeverBelow(a) && Depth(a) == 0
    ensures var ts := [LParen] + a + [RParen];
            && NeverBelow(ts)
            && forall i :: 0 < i < |ts| ==> Depth(ts[..i]) >= 1
  {
    var ts := [LParen] + a + [RParen];
    One(LParen);
    One(RParen);
    Measures([LParen] + a, [RParen]);
    Measures([LParen], a);
    forall i | 0 < i < |ts| ensures Depth(ts[..i]) >= 1 {
      assert ts[..i] == [LParen] + a[..i - 1];
      Measures([LParen], a[..i - 1]);
    }
    assert ts[..0] == [] && ts[..|ts|] == ts;
  }

  lemma {:induction false} RawNeverBelow(e: Expr)
    ensures NeverBelow(Raw(e))
  {
    match e {
      case Atom(n) => Alone(Name(n));
      case Unary(u, x) =>
        RawNeverBelow(x);
        Joined([], UnTok(u), Raw(x));
        assert [] + [UnTok(u)] + Raw(x) == Raw(e);
      case Binary(op, l, r) =>
        RawNeverBelow(l);
        RawNeverBelow(r);
        RawMeasures(l);
        Joined(Raw(l), Op(op), Raw(r));
      case Range(a, b, i) =>
        RawNeverBelow(a);
        RawNeverBelow(b);
        RawMeasures(a);
        Joined(Raw(a), DotDot(i), Raw(b));
      case Index(o, i) =>
        RawNeverBelow(o);
        RawNeverBelow(i);
        RawMeasures(o);
        RawMeasures(i);
        Joined(Raw(o), LBracket, Raw(i));
        BalancedJoin(Raw(o), ShapeWeight(o), LBracket, Raw(i), ShapeWeight(i));
        Joined(Raw(o) + [LBracket] + Raw(i), RBracket, []);
        assert Raw(o) + [LBracket] + Raw(i) + [RBracket] + [] == Raw(e);
      case Member(o, f) =>
        RawNeverBelow(o);
        RawMeasures(o);
        Alone(Name(f));
        Joined(Raw(o), Dot, [Name(f)]);
        assert Raw(o) + [Dot] + [Name(f)] == Raw(e);
      case Paren(x) =>
        RawNeverBelow(x);
        RawMeasures(x);
        Enclosed(Raw(x));
    }
  }

  /** A tree that is not a paren node comes to depth zero before its end, or is one token. */
  lemma OpensUp(e: Expr)
    requires !e.Paren? && |Raw(e)| > 1
    ensures exists i :: 0 < i < |Raw(e)| && Depth(Raw(e)[..i]) == 0
  {
    var head := match e
      case Binary(_, l, _) => Raw(l)
      case Range(a, _, _) => Raw(a)
      case Index(o, _) => Raw(o)
      case Member(o, _) => Raw(o)
      case Unary(u, _) => [UnTok(u)]
      case _ => Raw(e);
    assert Raw(e)[..|head|] == head;
    match e {
      case Binary(_, l, _) => RawMeasures(l);
      case Range(a, _, _) => RawMeasures(a);
      case Index(o, _) => RawMeasures(o);
      case Member(o, _) => RawMeasures(o);
      case Unary(u, _) => One(UnTok(u));
      case _ =>
    }
  }

  lemma ParenIsNotOpen(x: Expr, y: Expr)
    requires !y.Paren?
    ensures Raw(Paren(x)) != Raw(y)
  {
    RawNeverBelow(x);
    RawMeasures(x);
    Enclosed(Raw(x));
    if |Raw(y)| > 1 {
      OpensUp(y);
    }
  }

  /** Equal tokens with a solid token between parts of equal weight split at the same place. */
  lemma SplitSame(a: seq<Tok>, t: Tok, b: seq<Tok>, a': seq<Tok>, t': Tok, b': seq<Tok>)
    requires a + [t] + b == a' + [t'] + b' && Weights(a) == Weights(a')
    requires Weight(t) == 1 && Weight(t') == 1
    ensures a == a' && t == t' && b == b'
  {
    var ts := a + [t] + b;
    if |a| < |a'| {
      Heavier(a, t, a', ts);
    } else if |a'| < |a| {
      Heavier(a', t', a, ts);
    }
    assert a == ts[..|a|] && a' == ts[..|a'|];
    assert t == ts[|a|] && t' == ts[|a'|];
    assert b == ts[|a| + 1..] && b' == ts[|a'| + 1..];
  }

  lemma Heavier(a: seq<Tok>, t: Tok, longer: seq<Tok>, ts: seq<Tok>)
    requires Weight(t) == 1 && |a| < |longer| && a + [t] <= ts && longer <= ts
    ensures Weights(a) < Weights(longer)
  {
    assert longer[..|a| + 1] == a + [t];
    assert longer == a + [t] + longer[|a| + 1..];
    Measured3(a, t, longer[|a| + 1..]);
  }

  /** A tree is determined by its tokens and its shape: with the shape known, the tokens leave
      one place for every pair of parentheses. */
  lemma {:induction false} UniquelyParenthesised(x: Expr, y: Expr)
    requires Strip(x) == Strip(y) && Raw(x) == Raw(y)
    ensures x == y
    decreases x, 1
  {
    if x.Paren? && y.Paren? {
      InnerTokens([LParen], Raw(x.inner), Raw(y.inner), [RParen]);
      UniquelyParenthesised(x.inner, y.inner);
    } else if x.Paren? {
      ParenIsNotOpen(x.inner, y);
    } else if y.Paren? {
      ParenIsNotOpen(y.inner, x);
    } else {
      UniqueNodes(x, y);
    }
  }

  lemma {:induction false} UniqueNodes(x: Expr, y: Expr)
    requires Strip(x) == Strip(y) && Raw(x) == Raw(y) && !x.Paren? && !y.Paren?
    ensures x == y
    decreases x, 0
  {
    match x {
      case Atom(_) =>
      case Unary(u, a) =>
        InnerTokens([UnTok(u)], Raw(a), Raw(y.operand), []);
        UniquelyParenthesised(a, y.operand);
      case Binary(op, l, r) =>
        SameWeight(l, y.lhs);
        SplitSame(Raw(l), Op(op), Raw(r), Raw(y.lhs), Op(y.op), Raw(y.rhs));
        UniquelyParenthesised(l, y.lhs);
        UniquelyParenthesised(r, y.rhs);
      case Range(a, b, i) =>
        SameWeight(a, y.start);
        SplitSame(Raw(a), DotDot(i), Raw(b), Raw(y.start), DotDot(y.inclusive), Raw(y.end));
        UniquelyParenthesised(a, y.start);
        UniquelyParenthesised(b, y.end);
      case Index(o, i) =>
        SameWeight(o, y.object_);
        IndexTokens(Raw(o), Raw(i));
        IndexTokens(Raw(y.object_), Raw(y.index));
        SplitSame(Raw(o), LBracket, Raw(i) + [RBracket], Raw(y.object_), LBracket, Raw(y.index) + [RBracket]);
        InnerTokens([], Raw(i), Raw(y.index), [RBracket]);
        UniquelyParenthesised(o, y.object_);
        UniquelyParenthesised(i, y.index);
      case Member(o, f) =>
        InnerTokens([], Raw(o), Raw(y.object_), [Dot, Name(f)]);
        UniquelyParenthesised(o, y.object_);
    }
  }

  lemma InnerTokens(a: seq<Tok>, x: seq<Tok>, y: seq<Tok>, b: seq<Tok>)
    requires a + x + b == a + y + b || (a == [] && x + b == y + b) || (b == [] && a + x == a + y)
    ensures x == y
  {
    assert |x| == |y|;
    assert x == (a + x + b)[|a|..|a| + |x|] && y == (a + y + b)[|a|..|a| + |y|];
    assert a == [] ==> a + x + b == x + b && a + y + b == y + b;
    assert b == [] ==> a + x + b == a + x && a + y + b == a + y;
  }

  lemma IndexTokens(o: seq<Tok>, i: seq<Tok>)
    ensures o + [LBracket] + i + [RBracket] == o + [LBracket] + (i + [RBracket])
  {
  }

  lemma SameWeight(x: Expr, y: Expr)
    requires Strip(x) == Strip(y)
    ensures Weights(Raw(x)) == Weights(Raw(y))
  {
    StripWeight(x);
    StripWeight(y);
    RawMeasures(x);
    RawMeasures(y);
  }
}
