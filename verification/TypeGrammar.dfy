/** The types of the fragment as a grammar, and the parser's speculation against it: among tokens without `>>` the
    parser commits to type arguments exactly when a type, a `>` and a parenthesis follow the `<`. */
module TypeGrammar {
  import opened Wrappers
  import opened Syntax
  import opened Reader
  import opened TypeArguments

  /** A name, a name with an argument or none in angle brackets, or brackets around a type or nothing. */
  datatype Piece = Word(name: string) | Applied(name: string, arg: Option<Ty>) | Brackets(inner: Option<Ty>)

  /** A union of pieces. */
  datatype Ty = Single(piece: Piece) | Union(first: Piece, rest: Ty)

  predicate PieceValid(ns: Names, a: Piece) {
    match a
    case Word(n) => ns(n) == Bare || ns(n) == User
    case Applied(n, None) => ns(n) == User
    case Applied(n, Some(t)) => (ns(n) == OneArgument || ns(n) == User) && Valid(ns, t)
    case Brackets(None) => true
    case Brackets(Some(t)) => Valid(ns, t)
  }

  predicate Valid(ns: Names, t: Ty) {
    match t
    case Single(a) => PieceValid(ns, a)
    case Union(a, r) => PieceValid(ns, a) && Valid(ns, r)
  }

  function SpellPiece(a: Piece): (ts: seq<Tok>)
    ensures |ts| > 0 && (ts[0].Name? || ts[0].LBracket?)
  {
    match a
    case Word(n) => [Name(n)]
    case Applied(n, None) => [Name(n), Op(Lt), Op(Gt)]
    case Applied(n, Some(t)) => [Name(n), Op(Lt)] + Spell(t) + [Op(Gt)]
    case Brackets(None) => [LBracket, RBracket]
    case Brackets(Some(t)) => [LBracket] + Spell(t) + [RBracket]
  }

  function Spell(t: Ty): (ts: seq<Tok>)
    ensures |ts| > 0 && (ts[0].Name? || ts[0].LBracket?)
  {
    match t
    case Single(a) => SpellPiece(a)
    case Union(a, r) => SpellPiece(a) + [Op(BitOr)] + Spell(r)
  }

  // ----- every type is read -----

  /** From `i` to `j` stand the tokens `s`. */
  predicate Stands(ts: seq<Tok>, i: nat, j: nat, s: seq<Tok>) {
    i <= j <= |ts| && ts[i..j] == s
  }

  lemma PartStands(ts: seq<Tok>, i: nat, s: seq<Tok>, x: nat, part: seq<Tok>)
    requires Stands(ts, i, i + |s|, s) && x + |part| <= |s| && s[x..x + |part|] == part
    ensures Stands(ts, i + x, i + x + |part|, part)
  {
    forall k | 0 <= k < |part| ensures ts[i + x..i + x + |part|][k] == part[k] {
      assert ts[i..i + |s|][x + k] == s[x + k] == s[x..x + |part|][k];
    }
  }

  lemma StandsParts(ts: seq<Tok>, i: nat, a: seq<Tok>, b: seq<Tok>, c: seq<Tok>)
    requires Stands(ts, i, i + |a| + |b| + |c|, a + b + c)
    ensures Stands(ts, i, i + |a|, a) && Stands(ts, i + |a|, i + |a| + |b|, b)
    ensures Stands(ts, i + |a| + |b|, i + |a| + |b| + |c|, c)
  {
    var s := a + b + c;
    assert |s| == |a| + |b| + |c| && i + |s| == i + |a| + |b| + |c|;
    assert s[0..0 + |a|] == a && s[|a|..|a| + |b|] == b && s[|a| + |b|..|a| + |b| + |c|] == c;
    PartStands(ts, i, s, 0, a);
    PartStands(ts, i, s, |a|, b);
    PartStands(ts, i, s, |a| + |b|, c);
  }

  lemma FirstStands(ts: seq<Tok>, i: nat, j: nat, s: seq<Tok>)
    requires Stands(ts, i, j, s) && s != []
    ensures i < |ts| && ts[i] == s[0] && (|s| > 1 ==> i + 1 < |ts| && ts[i + 1] == s[1])
    ensures |s| > 2 ==> i + 2 < |ts| && ts[i + 2] == s[2]
  {
    assert ts[i..j][0] == ts[i];
    assert |s| > 1 ==> ts[i..j][1] == ts[i + 1];
    assert |s| > 2 ==> ts[i..j][2] == ts[i + 2];
  }

  lemma Between(ts: seq<Tok>, i: nat, j: nat, front: seq<Tok>, t: Ty, last: Tok)
    requires Stands(ts, i, j, front + Spell(t) + [last]) && 0 < |front| <= 2
    ensures i + |front| < j - 1 && Stands(ts, i + |front|, j - 1, Spell(t)) && At(ts, j - 1, last)
    ensures ts[i] == front[0] && (|front| == 2 ==> ts[i + 1] == front[1])
    ensures i + |front| < |ts| && (ts[i + |front|].Name? || ts[i + |front|].LBracket?)
  {
    StandsParts(ts, i, front, Spell(t), [last]);
    FirstStands(ts, i, i + |front|, front);
    FirstStands(ts, i + |front|, j - 1, Spell(t));
    FirstStands(ts, j - 1, j, [last]);
  }

  /** Where the type between the brackets of a piece stands. */
  lemma InnerStands(ns: Names, ts: seq<Tok>, i: nat, j: nat, a: Piece)
    requires PieceValid(ns, a) && Stands(ts, i, j, SpellPiece(a))
    ensures a.Applied? && a.arg.Some? ==>
      && i + 2 < j - 1 && Valid(ns, a.arg.value) && Stands(ts, i + 2, j - 1, Spell(a.arg.value)) && At(ts, j - 1, Op(Gt))
    ensures a.Brackets? && a.inner.Some? ==>
      && i + 1 < j - 1 && Valid(ns, a.inner.value) && Stands(ts, i + 1, j - 1, Spell(a.inner.value)) && At(ts, j - 1, RBracket)
  {
    if a.Applied? && a.arg.Some? {
      Between(ts, i, j, [Name(a.name), Op(Lt)], a.arg.value, Op(Gt));
    } else if a.Brackets? && a.inner.Some? {
      Between(ts, i, j, [LBracket], a.inner.value, RBracket);
    }
  }

  lemma AppliedReads(ns: Names, ts: seq<Tok>, i: nat, j: nat, n: string, t: Ty)
    requires (ns(n) == OneArgument || ns(n) == User) && Stands(ts, i, j, [Name(n), Op(Lt)] + Spell(t) + [Op(Gt)])
    requires Type(ns, ts, i + 2, 0) == Some((j - 1, 0))
    ensures TypeAtom(ns, ts, i, 0) == Some((j, 0))
  {
    Between(ts, i, j, [Name(n), Op(Lt)], t, Op(Gt));
    assert Argument(ns, ts, i + 2, 0) == Some((j, 0));
  }

  lemma BracketsRead(ns: Names, ts: seq<Tok>, i: nat, j: nat, t: Ty)
    requires Stands(ts, i, j, [LBracket] + Spell(t) + [RBracket])
    requires Type(ns, ts, i + 1, 0) == Some((j - 1, 0))
    ensures TypeAtom(ns, ts, i, 0) == Some((j, 0))
  {
    Between(ts, i, j, [LBracket], t, RBracket);
  }

  lemma SimpleReads(ns: Names, ts: seq<Tok>, i: nat, j: nat, a: Piece)
    requires PieceValid(ns, a) && Stands(ts, i, j, SpellPiece(a)) && !At(ts, j, Op(Lt))
    requires a.Word? || (a.Applied? && a.arg.None?) || (a.Brackets? && a.inner.None?)
    ensures TypeAtom(ns, ts, i, 0) == Some((j, 0))
  {
    FirstStands(ts, i, j, SpellPiece(a));
  }

  lemma {:induction false} PieceReads(ns: Names, ts: seq<Tok>, i: nat, j: nat, a: Piece)
    requires PieceValid(ns, a) && Stands(ts, i, j, SpellPiece(a)) && !At(ts, j, Op(Lt))
    ensures TypeAtom(ns, ts, i, 0) == Some((j, 0))
    decreases a, 0
  {
    match a {
      case Applied(n, Some(t)) =>
        InnerStands(ns, ts, i, j, a);
        TypeReads(ns, ts, i + 2, j - 1, t);
        AppliedReads(ns, ts, i, j, n, t);
      case Brackets(Some(t)) =>
        InnerStands(ns, ts, i, j, a);
        TypeReads(ns, ts, i + 1, j - 1, t);
        BracketsRead(ns, ts, i, j, t);
      case _ =>
        SimpleReads(ns, ts, i, j, a);
    }
  }

  /** How a union goes on does not depend on where it began. */
  lemma {:induction false} SameUnion(ns: Names, ts: seq<Tok>, i: nat, i': nat, j: nat, p: nat)
    requires Spans(ts, i, j) && Spans(ts, i', j)
    ensures TypeArguments.Union(ns, ts, i, j, p) == TypeArguments.Union(ns, ts, i', j, p)
    decreases |ts| - j
  {
    if At(ts, j, Op(BitOr)) && TypeAtom(ns, ts, j + 1, p).Some? {
      var (k, q) := TypeAtom(ns, ts, j + 1, p).value;
      SameUnion(ns, ts, i, i', k, q);
    }
  }

  /** After a `|` it goes on as a type of its own. */
  lemma UnionGoesOn(ns: Names, ts: seq<Tok>, i: nat, k: nat)
    requires Spans(ts, i, k) && At(ts, k, Op(BitOr)) && Type(ns, ts, k + 1, 0).Some?
    ensures TypeArguments.Union(ns, ts, i, k, 0) == Type(ns, ts, k + 1, 0)
  {
    var (m, q) := TypeAtom(ns, ts, k + 1, 0).value;
    SameUnion(ns, ts, i, k + 1, m, q);
  }

  lemma PartsStand(ts: seq<Tok>, i: nat, j: nat, a: Piece, r: Ty)
    requires Stands(ts, i, j, Spell(Ty.Union(a, r)))
    ensures var k := i + |SpellPiece(a)|;
            Stands(ts, i, k, SpellPiece(a)) && At(ts, k, Op(BitOr)) && Stands(ts, k + 1, j, Spell(r))
  {
    var k := i + |SpellPiece(a)|;
    StandsParts(ts, i, SpellPiece(a), [Op(BitOr)], Spell(r));
    FirstStands(ts, k, k + 1, [Op(BitOr)]);
  }

  lemma {:induction false} TypeReads(ns: Names, ts: seq<Tok>, i: nat, j: nat, t: Ty)
    requires Valid(ns, t) && Stands(ts, i, j, Spell(t)) && !At(ts, j, Op(Lt)) && !At(ts, j, Op(BitOr))
    ensures Type(ns, ts, i, 0) == Some((j, 0))
    decreases t, 0
  {
    match t {
      case Single(a) =>
        PieceReads(ns, ts, i, j, a);
      case Union(a, r) =>
        var k := i + |SpellPiece(a)|;
        PartsStand(ts, i, j, a, r);
        PieceReads(ns, ts, i, k, a);
        TypeReads(ns, ts, k + 1, j, r);
        UnionGoesOn(ns, ts, i, k);
    }
  }

  // ----- and nothing else is, where no `>>` closes two at once -----

  predicate NoShift(ts: seq<Tok>) {
    Op(Shr) !in ts
  }

  lemma ClosesWithGt(ts: seq<Tok>, j: nat)
    requires NoShift(ts)
    ensures Close(ts, j, 0) == if At(ts, j, Op(Gt)) then Some((j + 1, 0)) else None
    ensures AtClose(ts, j) <==> At(ts, j, Op(Gt))
  {
  }

  lemma {:induction false} PieceIsRead(ns: Names, ts: seq<Tok>, i: nat) returns (a: Piece)
    requires NoShift(ts) && TypeAtom(ns, ts, i, 0).Some?
    ensures TypeAtom(ns, ts, i, 0).value.1 == 0
    ensures PieceValid(ns, a) && Stands(ts, i, TypeAtom(ns, ts, i, 0).value.0, SpellPiece(a))
    decreases |ts| - i, 0
  {
    match ts[i] {
      case Name(n) =>
        ClosesWithGt(ts, i + 2);
        if !At(ts, i + 1, Op(Lt)) || ns(n) == Bare {
          a := Word(n);
        } else if ns(n) == User && AtClose(ts, i + 2) {
          a := Applied(n, None);
        } else {
          a := AppliedIsRead(ns, ts, i, n);
        }
      case LBracket =>
        if At(ts, i + 1, RBracket) {
          a := Brackets(None);
        } else {
          a := BracketsAreRead(ns, ts, i);
        }
    }
  }

  lemma {:induction false} BracketsAreRead(ns: Names, ts: seq<Tok>, i: nat) returns (a: Piece)
    requires NoShift(ts) && At(ts, i, LBracket) && Type(ns, ts, i + 1, 0).Some?
    requires At(ts, Type(ns, ts, i + 1, 0).value.0, RBracket)
    ensures Type(ns, ts, i + 1, 0).value.1 == 0
    ensures PieceValid(ns, a) && Stands(ts, i, Type(ns, ts, i + 1, 0).value.0 + 1, SpellPiece(a))
    decreases |ts| - i - 1, 3
  {
    var t := TypeIsRead(ns, ts, i + 1);
    a := Brackets(Some(t));
    var j := Type(ns, ts, i + 1, 0).value.0;
    assert ts[i..j + 1] == [LBracket] + ts[i + 1..j] + [RBracket];
  }

  lemma {:induction false} AppliedIsRead(ns: Names, ts: seq<Tok>, i: nat, n: string) returns (a: Piece)
    requires NoShift(ts) && At(ts, i, Name(n)) && At(ts, i + 1, Op(Lt)) && (ns(n) == OneArgument || ns(n) == User)
    requires Argument(ns, ts, i + 2, 0).Some?
    ensures Argument(ns, ts, i + 2, 0).value.1 == 0
    ensures PieceValid(ns, a) && Stands(ts, i, Argument(ns, ts, i + 2, 0).value.0, SpellPiece(a))
    decreases |ts| - i - 1
  {
    var t := TypeIsRead(ns, ts, i + 2);
    var j := Type(ns, ts, i + 2, 0).value.0;
    ClosesWithGt(ts, j);
    a := Applied(n, Some(t));
    AppliedSpelled(ns, ts, i, j, n, t);
  }

  lemma AppliedSpelled(ns: Names, ts: seq<Tok>, i: nat, j: nat, n: string, t: Ty)
    requires At(ts, i, Name(n)) && At(ts, i + 1, Op(Lt)) && At(ts, j, Op(Gt)) && Stands(ts, i + 2, j, Spell(t))
    requires (ns(n) == OneArgument || ns(n) == User) && Valid(ns, t)
    ensures PieceValid(ns, Applied(n, Some(t))) && Stands(ts, i, j + 1, SpellPiece(Applied(n, Some(t))))
  {
    assert ts[i..j + 1] == [Name(n), Op(Lt)] + ts[i + 2..j] + [Op(Gt)];
  }

  lemma {:induction false} TypeIsRead(ns: Names, ts: seq<Tok>, i: nat) returns (t: Ty)
    requires NoShift(ts) && Type(ns, ts, i, 0).Some?
    ensures Type(ns, ts, i, 0).value.1 == 0
    ensures Valid(ns, t) && Stands(ts, i, Type(ns, ts, i, 0).value.0, Spell(t))
    decreases |ts| - i, 2
  {
    var a := PieceIsRead(ns, ts, i);
    var (end, q) := Type(ns, ts, i, 0).value;
    t := UnionIsRead(ns, ts, i, i, TypeAtom(ns, ts, i, 0).value.0, a, end, q);
  }

  lemma UnionSteps(ns: Names, ts: seq<Tok>, i: nat, j: nat, end: nat, q: nat) returns (k: nat, p: nat)
    requires Spans(ts, i, j) && At(ts, j, Op(BitOr)) && TypeArguments.Union(ns, ts, i, j, 0) == Some((end, q))
    ensures TypeAtom(ns, ts, j + 1, 0) == Some((k, p)) && j + 1 < k && Spans(ts, i, k)
    ensures TypeArguments.Union(ns, ts, i, k, p) == Some((end, q))
  {
    k, p := TypeAtom(ns, ts, j + 1, 0).value.0, TypeAtom(ns, ts, j + 1, 0).value.1;
  }

  lemma UnionEnds(ns: Names, ts: seq<Tok>, i: nat, j: nat)
    requires Spans(ts, i, j) && !At(ts, j, Op(BitOr))
    ensures TypeArguments.Union(ns, ts, i, j, 0) == Some((j, 0))
  {
  }

  /** A union read on to `end` from the piece `a` that stands from `from` to `j`. */
  lemma {:induction false} UnionIsRead(ns: Names, ts: seq<Tok>, i: nat, from: nat, j: nat, a: Piece, end: nat, q: nat)
    returns (t: Ty)
    requires NoShift(ts) && i <= from < j && PieceValid(ns, a) && Stands(ts, from, j, SpellPiece(a)) && Spans(ts, i, j)
    requires TypeArguments.Union(ns, ts, i, j, 0) == Some((end, q))
    ensures q == 0 && Valid(ns, t) && Stands(ts, from, end, Spell(t))
    decreases |ts| - from, 1
  {
    if At(ts, j, Op(BitOr)) {
      var k, p := UnionSteps(ns, ts, i, j, end, q);
      var b := PieceIsRead(ns, ts, j + 1);
      var rest := UnionIsRead(ns, ts, i, j + 1, k, b, end, q);
      t := Union(a, rest);
      UnionStands(ts, from, j, end, a, rest);
    } else {
      UnionEnds(ns, ts, i, j);
      t := Single(a);
    }
  }

  lemma UnionStands(ts: seq<Tok>, from: nat, j: nat, end: nat, a: Piece, rest: Ty)
    requires Stands(ts, from, j, SpellPiece(a)) && At(ts, j, Op(BitOr)) && Stands(ts, j + 1, end, Spell(rest))
    ensures Stands(ts, from, end, Spell(Union(a, rest)))
  {
    assert ts[from..end] == ts[from..j] + [Op(BitOr)] + ts[j + 1..end];
  }

  /** The speculation commits exactly to a type between angle brackets before a parenthesis. */
  lemma CommitsExactly(ns: Names, ts: seq<Tok>)
    requires NoShift(ts)
    ensures Committed(ns, ts) <==>
      exists t: Ty :: Valid(ns, t) && [Op(Lt)] + Spell(t) + [Op(Gt), LParen] <= ts
  {
    if Committed(ns, ts) {
      var t := TypeIsRead(ns, ts, 1);
      var j := Type(ns, ts, 1, 0).value.0;
      assert ts[..j + 2] == [Op(Lt)] + ts[1..j] + [Op(Gt), LParen];
      assert [Op(Lt)] + Spell(t) + [Op(Gt), LParen] == ts[..j + 2];
    }
    forall t: Ty | Valid(ns, t) && [Op(Lt)] + Spell(t) + [Op(Gt), LParen] <= ts ensures Committed(ns, ts) {
      SpelledCommits(ns, ts, t);
    }
  }

  lemma SpelledCommits(ns: Names, ts: seq<Tok>, t: Ty)
    requires Valid(ns, t) && [Op(Lt)] + Spell(t) + [Op(Gt), LParen] <= ts
    ensures Committed(ns, ts)
  {
    var j := 1 + |Spell(t)|;
    var s := [Op(Lt)] + Spell(t) + [Op(Gt), LParen];
    assert ts[..j + 2] == s;
    assert ts[0..j + 2] == s;
    StandsParts(ts, 0, [Op(Lt)], Spell(t), [Op(Gt), LParen]);
    FirstStands(ts, 0, 1, [Op(Lt)]);
    FirstStands(ts, 1, j, Spell(t));
    FirstStands(ts, j, j + 2, [Op(Gt), LParen]);
    TypeReads(ns, ts, 1, j, t);
  }
}
