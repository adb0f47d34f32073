/** The parser's speculation on explicit type arguments: after an operand, a `<` opens them if a type, a
    closing `>` and the `(` of a call follow. Only tokens of the expression fragment occur here, so a list
    has one type, and no type has parentheses. */
module TypeArguments {
  import opened Wrappers
  import opened Syntax
  import opened Reader

  /** How the type parser takes a name: not at all, as it stands, as the head of one argument, as the head
      of two, or as a user type with or without arguments. */
  datatype NameKind = NoType | Bare | OneArgument | TwoArguments | User

  type Names = string -> NameKind

  predicate At(ts: seq<Tok>, i: nat, t: Tok) {
    i < |ts| && ts[i] == t
  }

  predicate AtClose(ts: seq<Tok>, i: nat) {
    At(ts, i, Op(Gt)) || At(ts, i, Op(Shr))
  }

  predicate IsParen(t: Tok) {
    t == LParen || t == RParen
  }

  /** What a type may end with. */
  predicate EndsType(t: Tok) {
    t.Name? || t == Op(Gt) || t == Op(Shr) || t == RBracket
  }

  /** From `i` to `j` stand tokens of a type, none of them a parenthesis. */
  ghost predicate Spans(ts: seq<Tok>, i: nat, j: nat) {
    && i < j <= |ts| && (forall k :: i <= k < j ==> !IsParen(ts[k]))
    && (EndsType(ts[j - 1]) || AtClose(ts, j))
  }

  /** One closing `>`: what is left of a `>>` already taken, or the next token. With it goes the number of
      closings still left over. */
  function Close(ts: seq<Tok>, i: nat, p: nat): Option<(nat, nat)> {
    if p > 0 then Some((i, p - 1))
    else if At(ts, i, Op(Gt)) then Some((i + 1, 0))
    else if At(ts, i, Op(Shr)) then Some((i + 1, 1))
    else None
  }

  function Argument(ns: Names, ts: seq<Tok>, i: nat, p: nat): (r: Option<(nat, nat)>)
    ensures r.Some? ==> Spans(ts, i, r.value.0)
    decreases |ts| - i, 2
  {
    match Type(ns, ts, i, p)
    case None => None
    case Some((j, q)) => Close(ts, j, q)
  }

  function TypeAtom(ns: Names, ts: seq<Tok>, i: nat, p: nat): (r: Option<(nat, nat)>)
    ensures r.Some? ==> Spans(ts, i, r.value.0)
    decreases |ts| - i, 0
  {
    if i >= |ts| then None
    else match ts[i]
      case Name(n) =>
        (match ns(n)
         case NoType => None
         case Bare => Some((i + 1, p))
         case OneArgument => if At(ts, i + 1, Op(Lt)) then Argument(ns, ts, i + 2, p) else None
         case TwoArguments => None
         case User =>
           if !At(ts, i + 1, Op(Lt)) then Some((i + 1, p))
           else if AtClose(ts, i + 2) then Close(ts, i + 2, p)
           else Argument(ns, ts, i + 2, p))
      case LBracket =>
        if At(ts, i + 1, RBracket) then Some((i + 2, p))
        else
          (match Type(ns, ts, i + 1, p)
           case None => None
           case Some((j, q)) => if At(ts, j, RBracket) then Some((j + 1, q)) else None)
      case _ => None
  }

  function Type(ns: Names, ts: seq<Tok>, i: nat, p: nat): (r: Option<(nat, nat)>)
    ensures r.Some? ==> Spans(ts, i, r.value.0)
    decreases |ts| - i, 1
  {
    match TypeAtom(ns, ts, i, p)
    case None => None
    case Some((j, q)) => Union(ns, ts, i, j, q)
  }

  /** The rest of a union that began at `i`. */
  function Union(ns: Names, ts: seq<Tok>, i: nat, j: nat, p: nat): (r: Option<(nat, nat)>)
    requires Spans(ts, i, j)
    ensures r.Some? ==> Spans(ts, i, r.value.0)
    decreases |ts| - j, 1
  {
    if !At(ts, j, Op(BitOr)) then Some((j, p))
    else
      match TypeAtom(ns, ts, j + 1, p)
      case None => None
      case Some((k, q)) => Union(ns, ts, i, k, q)
  }

  /** Where the `(` of the call stands, if the tokens from the `<` on are type arguments before one. */
  function CallAt(ns: Names, ts: seq<Tok>): (r: Option<nat>)
    ensures r.Some? ==>
      && 1 < r.value < |ts| && ts[0] == Op(Lt) && ts[r.value] == LParen
      && EndsType(ts[r.value - 1]) && forall k :: 0 <= k < r.value ==> !IsParen(ts[k])
  {
    if !At(ts, 0, Op(Lt)) || AtClose(ts, 1) then None
    else
      match Argument(ns, ts, 1, 0)
      case None => None
      case Some((j, _)) => if At(ts, j, LParen) then Some(j) else None
  }

  predicate Committed(ns: Names, ts: seq<Tok>) {
    CallAt(ns, ts).Some?
  }

  function CommitsIn(ns: Names): Commits {
    (ts: seq<Tok>) => Committed(ns, ts)
  }

  // ----- the speculation looks no further than the parenthesis -----

  ghost predicate Agree(ts: seq<Tok>, us: seq<Tok>, n: nat) {
    n <= |ts| && n <= |us| && forall k :: 0 <= k < n ==> ts[k] == us[k]
  }

  lemma {:induction false} AtomLocal(ns: Names, ts: seq<Tok>, us: seq<Tok>, n: nat, i: nat, p: nat)
    requires Agree(ts, us, n) && TypeAtom(ns, ts, i, p).Some? && TypeAtom(ns, ts, i, p).value.0 < n
    ensures TypeAtom(ns, us, i, p) == TypeAtom(ns, ts, i, p)
    decreases |ts| - i, 0
  {
    match ts[i] {
      case Name(name) =>
        if (ns(name) == OneArgument || ns(name) == User) && At(ts, i + 1, Op(Lt)) && !(ns(name) == User && AtClose(ts, i + 2)) {
          ArgumentLocal(ns, ts, us, n, i + 2, p);
        }
      case LBracket =>
        if !At(ts, i + 1, RBracket) {
          TypeLocal(ns, ts, us, n, i + 1, p);
        }
      case _ =>
    }
  }

  lemma {:induction false} ArgumentLocal(ns: Names, ts: seq<Tok>, us: seq<Tok>, n: nat, i: nat, p: nat)
    requires Agree(ts, us, n) && Argument(ns, ts, i, p).Some? && Argument(ns, ts, i, p).value.0 < n
    ensures Argument(ns, us, i, p) == Argument(ns, ts, i, p)
    decreases |ts| - i, 2
  {
    TypeLocal(ns, ts, us, n, i, p);
  }

  lemma {:induction false} TypeLocal(ns: Names, ts: seq<Tok>, us: seq<Tok>, n: nat, i: nat, p: nat)
    requires Agree(ts, us, n) && Type(ns, ts, i, p).Some? && Type(ns, ts, i, p).value.0 < n
    ensures Type(ns, us, i, p) == Type(ns, ts, i, p)
    decreases |ts| - i, 1
  {
    var (j, q) := TypeAtom(ns, ts, i, p).value;
    UnionGrows(ns, ts, i, j, q);
    AtomLocal(ns, ts, us, n, i, p);
    UnionLocal(ns, ts, us, n, i, j, q);
  }

  lemma {:induction false} UnionGrows(ns: Names, ts: seq<Tok>, i: nat, j: nat, p: nat)
    requires Spans(ts, i, j) && Union(ns, ts, i, j, p).Some?
    ensures j <= Union(ns, ts, i, j, p).value.0
    decreases |ts| - j
  {
    if At(ts, j, Op(BitOr)) {
      var (k, q) := TypeAtom(ns, ts, j + 1, p).value;
      UnionGrows(ns, ts, i, k, q);
    }
  }

  lemma {:induction false} UnionLocal(ns: Names, ts: seq<Tok>, us: seq<Tok>, n: nat, i: nat, j: nat, p: nat)
    requires Agree(ts, us, n) && Spans(ts, i, j) && Spans(us, i, j)
    requires Union(ns, ts, i, j, p).Some? && Union(ns, ts, i, j, p).value.0 < n
    ensures Union(ns, us, i, j, p) == Union(ns, ts, i, j, p)
    decreases |ts| - j, 1
  {
    UnionGrows(ns, ts, i, j, p);
    if At(ts, j, Op(BitOr)) {
      var (k, q) := TypeAtom(ns, ts, j + 1, p).value;
      UnionGrows(ns, ts, i, k, q);
      AtomLocal(ns, ts, us, n, j + 1, p);
      UnionLocal(ns, ts, us, n, i, k, q);
    }
  }

  /** Tokens that agree up to the parenthesis commit alike. */
  lemma CommitIsLocal(ns: Names, ts: seq<Tok>, us: seq<Tok>)
    requires Committed(ns, ts) && Agree(ts, us, CallAt(ns, ts).value + 1)
    ensures Committed(ns, us)
  {
    ArgumentLocal(ns, ts, us, CallAt(ns, ts).value + 1, 1, 0);
  }
}
