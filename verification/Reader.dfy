/** The parser's precedence tiers, from the loosest operator down to a primary expression. */
module Reader {
  import opened Syntax

  datatype Read = Got(e: Expr, rest: seq<Tok>) | Stuck

  /** Whether the tokens from a `<` on are type arguments followed by the `(` of a call. There the parser
      has left the fragment: it reads a generic call and not a comparison. */
  type Commits = seq<Tok> -> bool

  /** A parser that knows no type arguments. */
  const NEVER: Commits := (ts: seq<Tok>) => false

  ghost predicate AtLess(c: Commits) {
    forall ts :: c(ts) ==> ts != [] && ts[0] == Op(Lt)
  }

  /** Whether `t` is a tier of left-associative operators. */
  predicate LoopTier(t: Table, k: nat) {
    1 <= k < POW && (k != RANGE || t.rangesChain)
  }

  /** The node a tier-`k` operator token makes of its sides, if the token is such an operator. */
  predicate IsTierOp(t: Table, k: nat, tok: Tok) {
    (tok.Op? && t.tier(tok.op) == k) || (tok.DotDot? && k == RANGE)
  }

  function Join(tok: Tok, l: Expr, r: Expr): Expr
    requires tok.Op? || tok.DotDot?
  {
    if tok.Op? then Binary(tok.op, l, r) else Range(l, r, tok.inclusive)
  }

  /** What a successful read is: a canonical tree at least as tight as asked, whose tokens are
      the ones taken. */
  ghost predicate Sound(t: Table, k: nat, ts: seq<Tok>, r: Read) {
    r.Got? ==> Raw(r.e) + r.rest == ts && Canonical(t, r.e) && Prec(t, r.e) >= k
  }

  function Tier(t: Table, c: Commits, k: nat, ts: seq<Tok>): (r: Read)
    requires 1 <= k <= UNARY
    ensures r.Got? ==> |r.rest| < |ts|
    decreases |ts|, 20 - k
  {
    if k == UNARY then UnaryTier(t, c, ts)
    else
      var left := Tier(t, c, k + 1, ts);
      if left.Stuck? then Stuck
      else if LoopTier(t, k) then Loop(t, c, k, left.e, left.rest)
      else if left.rest != [] && IsTierOp(t, k, left.rest[0]) then
        // One operator at most: `**` takes the rest of its own tier, a range does not chain.
        var right := Tier(t, c, if k == POW then k else k + 1, left.rest[1..]);
        if right.Stuck? then Stuck else Got(Join(left.rest[0], left.e, right.e), right.rest)
      else left
  }

  function Loop(t: Table, c: Commits, k: nat, left: Expr, ts: seq<Tok>): (r: Read)
    requires 1 <= k < POW
    ensures r.Got? ==> |r.rest| <= |ts|
    decreases |ts|, 30
  {
    if ts == [] || !IsTierOp(t, k, ts[0]) then Got(left, ts)
    else
      var right := Tier(t, c, k + 1, ts[1..]);
      if right.Stuck? then Stuck else Loop(t, c, k, Join(ts[0], left, right.e), right.rest)
  }

  function UnaryTier(t: Table, c: Commits, ts: seq<Tok>): (r: Read)
    ensures r.Got? ==> |r.rest| < |ts|
    decreases |ts|, 5
  {
    if ts == [] then Stuck
    else if ts[0] == Op(Sub) || ts[0].Bang? || ts[0].Tilde? then
      var x := UnaryTier(t, c, ts[1..]);
      if x.Stuck? then Stuck
      else Got(Unary(match ts[0] case Bang => Not case Tilde => BitNot case _ => Neg, x.e), x.rest)
    else
      var x := Primary(t, c, ts);
      if x.Stuck? then Stuck else Postfix(t, c, x.e, x.rest)
  }

  function Postfix(t: Table, c: Commits, left: Expr, ts: seq<Tok>): (r: Read)
    ensures r.Got? ==> |r.rest| <= |ts|
    decreases |ts|, 3
  {
    if ts == [] then Got(left, ts)
    else if c(ts) then Stuck
    else if ts[0].LBracket? then
      var i := Tier(t, c, 1, ts[1..]);
      if i.Stuck? || i.rest == [] || !i.rest[0].RBracket? then Stuck
      else Postfix(t, c, Index(left, i.e), i.rest[1..])
    else if ts[0].Dot? then
      if |ts| < 2 || !ts[1].Name? then Stuck
      else Postfix(t, c, Member(left, ts[1].text), ts[2..])
    else Got(left, ts)
  }

  function Primary(t: Table, c: Commits, ts: seq<Tok>): (r: Read)
    ensures r.Got? ==> |r.rest| < |ts|
    decreases |ts|, 1
  {
    if ts == [] then Stuck
    else if ts[0].Name? then Got(Atom(ts[0].text), ts[1..])
    else if ts[0].LParen? then
      var x := Tier(t, c, 1, ts[1..]);
      if x.Stuck? || x.rest == [] || !x.rest[0].RParen? then Stuck
      else Got(Paren(x.e), x.rest[1..])
    else Stuck
  }

  /** A whole expression, with nothing left over. */
  function Parse(t: Table, c: Commits, ts: seq<Tok>): Read {
    var r := Tier(t, c, 1, ts);
    if r.Got? && r.rest == [] then r else Stuck
  }

  // ----- what is read is canonical, and spelled by the tokens taken -----

  lemma {:induction false} TierSound(t: Table, c: Commits, k: nat, ts: seq<Tok>)
    requires t.Valid() && 1 <= k <= UNARY
    ensures Sound(t, k, ts, Tier(t, c, k, ts))
    decreases |ts|, 20 - k
  {
    if k == UNARY {
      UnarySound(t, c, ts);
    } else {
      TierSound(t, c, k + 1, ts);
      var left := Tier(t, c, k + 1, ts);
      if left.Got? {
        if LoopTier(t, k) {
          LoopSound(t, c, k, left.e, left.rest);
        } else if left.rest != [] && IsTierOp(t, k, left.rest[0]) {
          var k' := if k == POW then k else k + 1;
          TierSound(t, c, k', left.rest[1..]);
          var right := Tier(t, c, k', left.rest[1..]);
          if right.Got? {
            JoinSpelled(left.rest[0], left.e, right.e, left.rest, right.rest);
          }
        }
      }
    }
  }

  lemma JoinSpelled(tok: Tok, l: Expr, r: Expr, ts: seq<Tok>, rest: seq<Tok>)
    requires tok.Op? || tok.DotDot?
    requires ts != [] && ts[0] == tok && Raw(r) + rest == ts[1..]
    ensures Raw(Join(tok, l, r)) + rest == Raw(l) + ts
  {
    assert ts == [tok] + ts[1..];
  }

  lemma {:induction false} LoopSound(t: Table, c: Commits, k: nat, left: Expr, ts: seq<Tok>)
    requires t.Valid() && LoopTier(t, k) && Canonical(t, left) && Prec(t, left) >= k
    ensures Sound(t, k, Raw(left) + ts, Loop(t, c, k, left, ts))
    decreases |ts|, 30
  {
    if ts != [] && IsTierOp(t, k, ts[0]) {
      TierSound(t, c, k + 1, ts[1..]);
      var right := Tier(t, c, k + 1, ts[1..]);
      if right.Got? {
        JoinSpelled(ts[0], left, right.e, ts, right.rest);
        LoopSound(t, c, k, Join(ts[0], left, right.e), right.rest);
      }
    }
  }

  lemma {:induction false} UnarySound(t: Table, c: Commits, ts: seq<Tok>)
    requires t.Valid()
    ensures Sound(t, UNARY, ts, UnaryTier(t, c, ts))
    decreases |ts|, 5
  {
    if ts != [] {
      if ts[0] == Op(Sub) || ts[0].Bang? || ts[0].Tilde? {
        UnarySound(t, c, ts[1..]);
        assert ts == [ts[0]] + ts[1..];
      } else {
        PrimarySound(t, c, ts);
        var x := Primary(t, c, ts);
        if x.Got? {
          PostfixSound(t, c, x.e, x.rest);
        }
      }
    }
  }

  lemma {:induction false} PostfixSound(t: Table, c: Commits, left: Expr, ts: seq<Tok>)
    requires t.Valid() && Canonical(t, left) && Prec(t, left) >= POSTFIX
    ensures Sound(t, POSTFIX, Raw(left) + ts, Postfix(t, c, left, ts))
    decreases |ts|, 3
  {
    if ts != [] && ts[0].LBracket? {
      TierSound(t, c, 1, ts[1..]);
      var i := Tier(t, c, 1, ts[1..]);
      if i.Got? && i.rest != [] && i.rest[0].RBracket? {
        var o := Index(left, i.e);
        IndexSpelled(left, i.e, ts, i.rest);
        PostfixSound(t, c, o, i.rest[1..]);
      }
    } else if |ts| >= 2 && ts[0].Dot? && ts[1].Name? {
      var o := Member(left, ts[1].text);
      MemberSpelled(left, ts);
      PostfixSound(t, c, o, ts[2..]);
    }
  }

  lemma IndexSpelled(o: Expr, i: Expr, ts: seq<Tok>, rest: seq<Tok>)
    requires ts != [] && ts[0].LBracket? && rest != [] && rest[0].RBracket?
    requires Raw(i) + rest == ts[1..]
    ensures Raw(Index(o, i)) + rest[1..] == Raw(o) + ts
  {
    assert ts == [LBracket] + Raw(i) + [RBracket] + rest[1..];
  }

  lemma MemberSpelled(o: Expr, ts: seq<Tok>)
    requires |ts| >= 2 && ts[0].Dot? && ts[1].Name?
    ensures Raw(Member(o, ts[1].text)) + ts[2..] == Raw(o) + ts
  {
    assert ts == [Dot, Name(ts[1].text)] + ts[2..];
  }

  lemma {:induction false} PrimarySound(t: Table, c: Commits, ts: seq<Tok>)
    requires t.Valid()
    ensures Sound(t, POSTFIX + 1, ts, Primary(t, c, ts))
    decreases |ts|, 1
  {
    if ts != [] {
      assert ts == [ts[0]] + ts[1..];
      if ts[0].LParen? {
        TierSound(t, c, 1, ts[1..]);
        var x := Tier(t, c, 1, ts[1..]);
        if x.Got? && x.rest != [] && x.rest[0].RParen? {
          assert ts == [LParen] + Raw(x.e) + [RParen] + x.rest[1..];
        }
      }
    }
  }

  // ----- and between its tokens the parser never committed to type arguments -----

  predicate QuietAt(c: Commits, ts: seq<Tok>, i: nat)
    requires i <= |ts|
  {
    !c(ts[i..])
  }

  /** `rest` ends `ts`, and nowhere from the start of `ts` to that of `rest` does the parser commit. */
  ghost predicate QuietTo(c: Commits, ts: seq<Tok>, rest: seq<Tok>) {
    && |rest| <= |ts| && rest == ts[|ts| - |rest|..]
    && forall i :: 0 <= i <= |ts| - |rest| ==> QuietAt(c, ts, i)
  }

  lemma QuietHere(c: Commits, ts: seq<Tok>)
    requires !c(ts)
    ensures QuietTo(c, ts, ts)
  {
    assert ts[0..] == ts;
  }

  lemma QuietCons(c: Commits, ts: seq<Tok>, rest: seq<Tok>)
    requires ts != [] && !c(ts) && QuietTo(c, ts[1..], rest)
    ensures QuietTo(c, ts, rest)
  {
    forall i | 0 <= i <= |ts| - |rest| ensures QuietAt(c, ts, i) {
      if i > 0 {
        assert QuietAt(c, ts[1..], i - 1);
        assert ts[1..][i - 1..] == ts[i..];
      }
    }
    assert ts[1..][|ts| - 1 - |rest|..] == ts[|ts| - |rest|..];
  }

  lemma QuietTrans(c: Commits, ts: seq<Tok>, mid: seq<Tok>, rest: seq<Tok>)
    requires QuietTo(c, ts, mid) && QuietTo(c, mid, rest)
    ensures QuietTo(c, ts, rest)
  {
    var n := |ts| - |mid|;
    forall i | 0 <= i <= |ts| - |rest| ensures QuietAt(c, ts, i) {
      if i > n {
        assert QuietAt(c, mid, i - n);
        assert mid[i - n..] == ts[i..];
      }
    }
    assert mid[|mid| - |rest|..] == ts[|ts| - |rest|..];
  }

  lemma {:induction false} TierQuiet(t: Table, c: Commits, k: nat, ts: seq<Tok>)
    requires AtLess(c) && 1 <= k <= UNARY && Tier(t, c, k, ts).Got?
    ensures QuietTo(c, ts, Tier(t, c, k, ts).rest)
    decreases |ts|, 20 - k
  {
    if k == UNARY {
      UnaryQuiet(t, c, ts);
    } else {
      TierQuiet(t, c, k + 1, ts);
      var left := Tier(t, c, k + 1, ts);
      if LoopTier(t, k) {
        QuietLast(c, ts, left.rest);
        LoopQuiet(t, c, k, left.e, left.rest);
        QuietTrans(c, ts, left.rest, Tier(t, c, k, ts).rest);
      } else if left.rest != [] && IsTierOp(t, k, left.rest[0]) {
        var k' := if k == POW then k else k + 1;
        TierQuiet(t, c, k', left.rest[1..]);
        QuietLast(c, ts, left.rest);
        QuietCons(c, left.rest, Tier(t, c, k, ts).rest);
        QuietTrans(c, ts, left.rest, Tier(t, c, k, ts).rest);
      }
    }
  }

  lemma QuietLast(c: Commits, ts: seq<Tok>, rest: seq<Tok>)
    requires QuietTo(c, ts, rest)
    ensures !c(rest)
  {
    assert QuietAt(c, ts, |ts| - |rest|);
  }

  lemma {:induction false} LoopQuiet(t: Table, c: Commits, k: nat, left: Expr, ts: seq<Tok>)
    requires AtLess(c) && 1 <= k < POW && Loop(t, c, k, left, ts).Got? && !c(ts)
    ensures QuietTo(c, ts, Loop(t, c, k, left, ts).rest)
    decreases |ts|, 30
  {
    if ts == [] || !IsTierOp(t, k, ts[0]) {
      QuietHere(c, ts);
    } else {
      TierQuiet(t, c, k + 1, ts[1..]);
      var right := Tier(t, c, k + 1, ts[1..]);
      QuietLast(c, ts[1..], right.rest);
      LoopQuiet(t, c, k, Join(ts[0], left, right.e), right.rest);
      QuietTrans(c, ts[1..], right.rest, Loop(t, c, k, left, ts).rest);
      QuietCons(c, ts, Loop(t, c, k, left, ts).rest);
    }
  }

  lemma {:induction false} UnaryQuiet(t: Table, c: Commits, ts: seq<Tok>)
    requires AtLess(c) && UnaryTier(t, c, ts).Got?
    ensures QuietTo(c, ts, UnaryTier(t, c, ts).rest)
    decreases |ts|, 5
  {
    if ts[0] == Op(Sub) || ts[0].Bang? || ts[0].Tilde? {
      UnaryQuiet(t, c, ts[1..]);
      QuietCons(c, ts, UnaryTier(t, c, ts[1..]).rest);
    } else {
      var x := Primary(t, c, ts);
      PostfixQuiet(t, c, x.e, x.rest);
      PrimaryQuiet(t, c, ts, Postfix(t, c, x.e, x.rest).rest);
    }
  }

  lemma {:induction false} PostfixQuiet(t: Table, c: Commits, left: Expr, ts: seq<Tok>)
    requires AtLess(c) && Postfix(t, c, left, ts).Got?
    ensures QuietTo(c, ts, Postfix(t, c, left, ts).rest)
    decreases |ts|, 3
  {
    var rest := Postfix(t, c, left, ts).rest;
    if ts != [] && ts[0].LBracket? {
      TierQuiet(t, c, 1, ts[1..]);
      var i := Tier(t, c, 1, ts[1..]);
      PostfixQuiet(t, c, Index(left, i.e), i.rest[1..]);
      QuietCons(c, i.rest, rest);
      QuietTrans(c, ts[1..], i.rest, rest);
      QuietCons(c, ts, rest);
    } else if ts != [] && ts[0].Dot? {
      PostfixQuiet(t, c, Member(left, ts[1].text), ts[2..]);
      assert ts[1..][1..] == ts[2..];
      QuietCons(c, ts[1..], rest);
      QuietCons(c, ts, rest);
    } else {
      QuietHere(c, ts);
    }
  }

  /** A primary itself is quiet; what follows it is for the postfix loop to see. */
  lemma {:induction false} PrimaryQuiet(t: Table, c: Commits, ts: seq<Tok>, tail: seq<Tok>)
    requires AtLess(c) && Primary(t, c, ts).Got? && QuietTo(c, Primary(t, c, ts).rest, tail)
    ensures QuietTo(c, ts, tail)
    decreases |ts|, 1
  {
    if ts[0].LParen? {
      TierQuiet(t, c, 1, ts[1..]);
      var x := Tier(t, c, 1, ts[1..]);
      QuietCons(c, x.rest, tail);
      QuietTrans(c, ts[1..], x.rest, tail);
    }
    QuietCons(c, ts, tail);
  }

  // ----- where the parser never commits, type arguments make no difference -----

  /** Nowhere in these tokens does the parser commit. */
  ghost predicate Quiet(c: Commits, ts: seq<Tok>) {
    forall i :: 0 <= i <= |ts| ==> QuietAt(c, ts, i)
  }

  lemma QuietFrom(c: Commits, ts: seq<Tok>, n: nat)
    requires Quiet(c, ts) && n <= |ts|
    ensures Quiet(c, ts[n..]) && !c(ts[n..])
  {
    assert QuietAt(c, ts, n);
    forall i | 0 <= i <= |ts| - n ensures QuietAt(c, ts[n..], i) {
      assert QuietAt(c, ts, n + i);
      assert ts[n..][i..] == ts[n + i..];
    }
  }

  /** What a tier leaves is the end of what it was given. */
  lemma TierEnds(t: Table, c: Commits, k: nat, ts: seq<Tok>)
    requires Quiet(c, ts) && 1 <= k <= UNARY && Tier(t, NEVER, k, ts).Got?
    ensures var rest := Tier(t, NEVER, k, ts).rest; Quiet(c, rest) && (rest != [] ==> Quiet(c, rest[1..]))
  {
    TierQuiet(t, NEVER, k, ts);
    var rest := Tier(t, NEVER, k, ts).rest;
    QuietFrom(c, ts, |ts| - |rest|);
    if rest != [] {
      QuietFrom(c, rest, 1);
    }
  }

  lemma {:induction false} TierSame(t: Table, c: Commits, k: nat, ts: seq<Tok>)
    requires Quiet(c, ts) && 1 <= k <= UNARY
    ensures Tier(t, c, k, ts) == Tier(t, NEVER, k, ts)
    decreases |ts|, 20 - k
  {
    if k == UNARY {
      UnarySame(t, c, ts);
    } else {
      TierSame(t, c, k + 1, ts);
      var left := Tier(t, NEVER, k + 1, ts);
      if left.Got? {
        TierEnds(t, c, k + 1, ts);
        if LoopTier(t, k) {
          LoopSame(t, c, k, left.e, left.rest);
        } else if left.rest != [] && IsTierOp(t, k, left.rest[0]) {
          TierSame(t, c, if k == POW then k else k + 1, left.rest[1..]);
        }
      }
    }
  }

  lemma {:induction false} LoopSame(t: Table, c: Commits, k: nat, left: Expr, ts: seq<Tok>)
    requires Quiet(c, ts) && 1 <= k < POW
    ensures Loop(t, c, k, left, ts) == Loop(t, NEVER, k, left, ts)
    decreases |ts|, 30
  {
    if ts != [] && IsTierOp(t, k, ts[0]) {
      QuietFrom(c, ts, 1);
      TierSame(t, c, k + 1, ts[1..]);
      var right := Tier(t, NEVER, k + 1, ts[1..]);
      if right.Got? {
        TierEnds(t, c, k + 1, ts[1..]);
        LoopSame(t, c, k, Join(ts[0], left, right.e), right.rest);
      }
    }
  }

  lemma {:induction false} UnarySame(t: Table, c: Commits, ts: seq<Tok>)
    requires Quiet(c, ts)
    ensures UnaryTier(t, c, ts) == UnaryTier(t, NEVER, ts)
    decreases |ts|, 5
  {
    if ts != [] {
      QuietFrom(c, ts, 1);
      if ts[0] == Op(Sub) || ts[0].Bang? || ts[0].Tilde? {
        UnarySame(t, c, ts[1..]);
      } else {
        PrimarySame(t, c, ts);
        var x := Primary(t, NEVER, ts);
        if x.Got? {
          PostfixSame(t, c, x.e, x.rest);
        }
      }
    }
  }

  lemma {:induction false} PostfixSame(t: Table, c: Commits, left: Expr, ts: seq<Tok>)
    requires Quiet(c, ts)
    ensures Postfix(t, c, left, ts) == Postfix(t, NEVER, left, ts)
    decreases |ts|, 3
  {
    QuietFrom(c, ts, 0);
    assert ts[0..] == ts;
    if ts != [] && ts[0].LBracket? {
      QuietFrom(c, ts, 1);
      TierSame(t, c, 1, ts[1..]);
      var i := Tier(t, NEVER, 1, ts[1..]);
      if i.Got? && i.rest != [] && i.rest[0].RBracket? {
        TierEnds(t, c, 1, ts[1..]);
        PostfixSame(t, c, Index(left, i.e), i.rest[1..]);
      }
    } else if |ts| >= 2 && ts[0].Dot? && ts[1].Name? {
      QuietFrom(c, ts, 2);
      PostfixSame(t, c, Member(left, ts[1].text), ts[2..]);
    }
  }

  lemma {:induction false} PrimarySame(t: Table, c: Commits, ts: seq<Tok>)
    requires Quiet(c, ts)
    ensures Primary(t, c, ts) == Primary(t, NEVER, ts)
    ensures Primary(t, c, ts).Got? ==> Quiet(c, Primary(t, c, ts).rest)
    decreases |ts|, 1
  {
    if ts != [] {
      QuietFrom(c, ts, 1);
      if ts[0].LParen? {
        TierSame(t, c, 1, ts[1..]);
        if Tier(t, NEVER, 1, ts[1..]).Got? {
          TierEnds(t, c, 1, ts[1..]);
        }
      }
    }
  }

  // ----- every canonical tree is read back from its tokens -----

  /** `rest` cannot extend an expression read at tier `k`. */
  predicate StopsAt(t: Table, k: nat, rest: seq<Tok>) {
    rest == [] ||
    match rest[0]
    case Op(op) => t.tier(op) < k
    case DotDot(_) => RANGE < k
    case LBracket => false
    case Dot => false
    case LParen => false
    case Bang => false
    case _ => true
  }

  /** The tokens of a canonical tree, read at any tier no tighter than the tree, give the tree
      back and leave what follows. */
  lemma {:induction false} TierReads(t: Table, k: nat, e: Expr, rest: seq<Tok>)
    requires t.Valid() && 1 <= k <= UNARY && Canonical(t, e) && Prec(t, e) >= k
    requires StopsAt(t, k, rest)
    ensures Tier(t, NEVER, k, Raw(e) + rest) == Got(e, rest)
    decreases e, 20 - k, 1
  {
    if k == UNARY {
      UnaryReads(t, e, rest);
    } else if LoopTier(t, k) {
      SpineReads(t, k, e, rest);
    } else if Prec(t, e) > k {
      TierReads(t, k + 1, e, rest);
    } else {
      OneReads(t, k, e, rest);
    }
  }

  /** The tiers that take one operator at most: `**`, and a range that does not chain. */
  lemma {:induction false} OneReads(t: Table, k: nat, e: Expr, rest: seq<Tok>)
    requires t.Valid() && 1 <= k < UNARY && Canonical(t, e) && Prec(t, e) == k && !LoopTier(t, k)
    requires StopsAt(t, k, rest)
    ensures Tier(t, NEVER, k, Raw(e) + rest) == Got(e, rest)
    decreases e, 20 - k, 0
  {
    var (l, tok, r) := Parts(e);
    var k' := if k == POW then k else k + 1;
    var after := [tok] + (Raw(r) + rest);
    assert Raw(e) + rest == Raw(l) + after;
    TierReads(t, k + 1, l, after);
    TierReads(t, k', r, rest);
    assert after[1..] == Raw(r) + rest;
  }

  function Parts(e: Expr): (p: (Expr, Tok, Expr))
    requires e.Binary? || e.Range?
    ensures Raw(e) == Raw(p.0) + [p.1] + Raw(p.2) && p.0 < e && p.2 < e
    ensures (p.1.Op? || p.1.DotDot?) && Join(p.1, p.0, p.2) == e
  {
    if e.Binary? then (e.lhs, Op(e.op), e.rhs) else (e.start, DotDot(e.inclusive), e.end)
  }

  /** A left-associative tier reads the leftmost operand and then loops; wherever the loop has
      got to, it stands before the tree read so far and what follows it. */
  lemma {:induction false} SpineReads(t: Table, k: nat, e: Expr, rest: seq<Tok>)
    requires t.Valid() && LoopTier(t, k) && Canonical(t, e) && Prec(t, e) >= k
    requires StopsAt(t, k + 1, rest)
    ensures Tier(t, NEVER, k, Raw(e) + rest) == Loop(t, NEVER, k, e, rest)
    decreases e, 20 - k, 0
  {
    if Prec(t, e) > k {
      TierReads(t, k + 1, e, rest);
    } else {
      var (l, tok, r) := Parts(e);
      var after := [tok] + (Raw(r) + rest);
      SpineReads(t, k, l, after);
      TierReads(t, k + 1, r, rest);
      LoopOnce(t, k, l, tok, r, rest);
      JoinRaw(tok, l, r, rest);
    }
  }

  lemma LoopOnce(t: Table, k: nat, l: Expr, tok: Tok, r: Expr, rest: seq<Tok>)
    requires 1 <= k < POW && IsTierOp(t, k, tok) && Tier(t, NEVER, k + 1, Raw(r) + rest) == Got(r, rest)
    ensures Loop(t, NEVER, k, l, [tok] + (Raw(r) + rest)) == Loop(t, NEVER, k, Join(tok, l, r), rest)
  {
    var after := [tok] + (Raw(r) + rest);
    assert after[0] == tok && after[1..] == Raw(r) + rest;
  }

  lemma JoinRaw(tok: Tok, l: Expr, r: Expr, rest: seq<Tok>)
    requires tok.Op? || tok.DotDot?
    ensures Raw(Join(tok, l, r)) + rest == Raw(l) + ([tok] + (Raw(r) + rest))
  {
    assert Raw(Join(tok, l, r)) == Raw(l) + [tok] + Raw(r);
  }

  lemma {:induction false} UnaryReads(t: Table, e: Expr, rest: seq<Tok>)
    requires t.Valid() && Canonical(t, e) && Prec(t, e) >= UNARY
    requires StopsAt(t, UNARY, rest)
    ensures UnaryTier(t, NEVER, Raw(e) + rest) == Got(e, rest)
    decreases e, 5, 0
  {
    if e.Unary? {
      UnaryReads(t, e.operand, rest);
      assert (Raw(e) + rest)[1..] == Raw(e.operand) + rest;
    } else {
      PostfixReads(t, e, rest);
    }
  }

  /** As for the left-associative tiers: a primary, then a loop over `[...]` and `.name`. */
  lemma {:induction false} PostfixReads(t: Table, e: Expr, rest: seq<Tok>)
    requires t.Valid() && Canonical(t, e) && Prec(t, e) >= POSTFIX
    ensures UnaryTier(t, NEVER, Raw(e) + rest) == Postfix(t, NEVER, e, rest)
    decreases e, 3, 0
  {
    var ts := Raw(e) + rest;
    match e {
      case Atom(n) =>
        assert ts == [Name(n)] + rest;
      case Paren(x) =>
        TierReads(t, 1, x, [RParen] + rest);
        assert ts[1..] == Raw(x) + ([RParen] + rest);
      case Index(o, i) =>
        var after := [LBracket] + (Raw(i) + ([RBracket] + rest));
        assert ts == Raw(o) + after;
        PostfixReads(t, o, after);
        TierReads(t, 1, i, [RBracket] + rest);
        assert after[1..] == Raw(i) + ([RBracket] + rest);
      case Member(o, f) =>
        var after := [Dot, Name(f)] + rest;
        assert ts == Raw(o) + after;
        PostfixReads(t, o, after);
        assert after[2..] == rest;
    }
  }

  /** Reading and spelling are inverse: a token sequence reads as `e` exactly when `e` is canonical and
      spelled by it, and nowhere in it does the parser commit to type arguments. */
  lemma ParseExactly(t: Table, c: Commits, ts: seq<Tok>, e: Expr)
    requires t.Valid() && AtLess(c)
    ensures Parse(t, c, ts) == Got(e, []) <==> Canonical(t, e) && Raw(e) == ts && Quiet(c, ts)
  {
    TierSound(t, c, 1, ts);
    if Canonical(t, e) && Raw(e) == ts && Quiet(c, ts) {
      assert Raw(e) + [] == ts;
      TierReads(t, 1, e, []);
      TierSame(t, c, 1, ts);
    }
    if Parse(t, c, ts) == Got(e, []) {
      assert Raw(e) + [] == Raw(e);
      TierQuiet(t, c, 1, ts);
    }
  }
}
