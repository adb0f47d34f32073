/** Cutting an input into pieces from left to right, where what may stand at a place depends on the
    frames left open by the pieces before it. */
module Tilings {
  import opened Lexer

  /** What may stand where, and what it leaves open. */
  datatype Rules = Rules(after: (seq<Frame>, Piece) -> seq<Frame>, fits: (seq<Frame>, Piece) -> bool)
  {
    ghost predicate Sensible() {
      && (forall f, p :: fits(f, p) ==> p.start < p.end)
      && (forall f, p, q :: fits(f, p) && fits(f, q) && p.start == q.start ==> p == q)
    }
  }

  /** Where the first `k` pieces end. */
  function EndOf(ps: seq<Piece>, k: nat): nat
    requires k <= |ps|
  {
    if k == 0 then 0 else ps[k - 1].end
  }

  /** The frames open after the first `k` pieces. */
  function Frames(r: Rules, ps: seq<Piece>, k: nat): seq<Frame>
    requires k <= |ps|
  {
    if k == 0 then [] else r.after(Frames(r, ps, k - 1), ps[k - 1])
  }

  predicate PieceAt(r: Rules, ps: seq<Piece>, k: nat)
    requires k < |ps|
  {
    ps[k].start == EndOf(ps, k) && r.fits(Frames(r, ps, k), ps[k])
  }

  /** The pieces lie end to end from 0 to `i`, each fitting where it starts. */
  ghost predicate Tiles(r: Rules, ps: seq<Piece>, i: nat) {
    EndOf(ps, |ps|) == i && forall k :: 0 <= k < |ps| ==> PieceAt(r, ps, k)
  }

  function TokensOf(ps: seq<Piece>): seq<Token> {
    if ps == [] then []
    else
      var last := ps[|ps| - 1];
      TokensOf(ps[..|ps| - 1]) + if last.Lexeme? then [last.token] else []
  }

  lemma {:induction false} FramesAgree(r: Rules, ps: seq<Piece>, qs: seq<Piece>, k: nat)
    requires k <= |ps| && k <= |qs| && forall j :: 0 <= j < k ==> ps[j] == qs[j]
    ensures Frames(r, ps, k) == Frames(r, qs, k)
  {
    if k > 0 {
      FramesAgree(r, ps, qs, k - 1);
    }
  }

  lemma TileOne(r: Rules, ps: seq<Piece>, i: nat, p: Piece)
    requires Tiles(r, ps, i) && p.start == i && r.fits(Frames(r, ps, |ps|), p)
    ensures Tiles(r, ps + [p], p.end)
    ensures Frames(r, ps + [p], |ps| + 1) == r.after(Frames(r, ps, |ps|), p)
    ensures TokensOf(ps + [p]) == TokensOf(ps) + if p.Lexeme? then [p.token] else []
  {
    var qs := ps + [p];
    assert qs[..|ps|] == ps;
    FramesAgree(r, ps, qs, |ps|);
    forall k | 0 <= k < |qs| ensures PieceAt(r, qs, k) {
      FramesAgree(r, ps, qs, if k < |ps| then k else |ps|);
      assert k < |ps| ==> PieceAt(r, ps, k);
    }
  }

  lemma TilesPrefix(r: Rules, ps: seq<Piece>, i: nat, k: nat)
    requires Tiles(r, ps, i) && k <= |ps|
    ensures Tiles(r, ps[..k], EndOf(ps, k))
  {
    forall j | 0 <= j < k ensures PieceAt(r, ps[..k], j) {
      assert PieceAt(r, ps, j);
      FramesAgree(r, ps, ps[..k], j);
    }
  }

  lemma {:induction false} EndsGrow(r: Rules, ps: seq<Piece>, i: nat, j: nat, k: nat)
    requires r.Sensible() && Tiles(r, ps, i) && j <= k <= |ps|
    ensures EndOf(ps, j) <= EndOf(ps, k) && (j < k ==> EndOf(ps, j) < EndOf(ps, k))
  {
    if j < k {
      EndsGrow(r, ps, i, j, k - 1);
      assert PieceAt(r, ps, k - 1);
    }
  }

  // ----- there is one reading at most -----

  /** Two cuts of one input agree as far as both go. */
  lemma CutsAgree(r: Rules, ps: seq<Piece>, i: nat, qs: seq<Piece>, j: nat)
    requires r.Sensible() && Tiles(r, ps, i) && Tiles(r, qs, j)
    ensures forall k :: 0 <= k < |ps| && k < |qs| ==> ps[k] == qs[k]
  {
    var k := 0;
    while k < |ps| && k < |qs|
      invariant k <= |ps| && k <= |qs| && forall m :: 0 <= m < k ==> ps[m] == qs[m]
    {
      FramesAgree(r, ps, qs, k);
      assert PieceAt(r, ps, k) && PieceAt(r, qs, k);
      k := k + 1;
    }
  }

  /** So one whole input is cut in one way only. */
  lemma OneCut(r: Rules, ps: seq<Piece>, qs: seq<Piece>, i: nat)
    requires r.Sensible() && Tiles(r, ps, i) && Tiles(r, qs, i)
    ensures ps == qs
  {
    CutsAgree(r, ps, i, qs, i);
    var n := if |ps| < |qs| then |ps| else |qs|;
    EndsGrow(r, ps, i, n, |ps|);
    EndsGrow(r, qs, i, n, |qs|);
    assert EndOf(ps, n) == EndOf(qs, n);
  }

  /** Where nothing fits, no cut goes on. */
  lemma NoCut(r: Rules, ps: seq<Piece>, i: nat, qs: seq<Piece>, j: nat)
    requires r.Sensible() && Tiles(r, ps, i) && Tiles(r, qs, j) && i < j
    ensures |ps| < |qs| && qs[|ps|].start == i && r.fits(Frames(r, ps, |ps|), qs[|ps|])
  {
    CutsAgree(r, ps, i, qs, j);
    var n := if |ps| < |qs| then |ps| else |qs|;
    EndsGrow(r, ps, i, n, |ps|);
    FramesAgree(r, ps, qs, n);
    assert EndOf(ps, n) == EndOf(qs, n);
    assert PieceAt(r, qs, |ps|);
  }

  // ----- the pieces cover everything -----

  predicate Covers(t: Token, x: nat) {
    t.start <= x < t.end
  }

  ghost predicate InToken(tokens: seq<Token>, x: nat) {
    exists t :: t in tokens && Covers(t, x)
  }

  ghost predicate Ordered(tokens: seq<Token>, i: nat) {
    && (forall k :: 0 <= k < |tokens| ==> tokens[k].start < tokens[k].end <= i)
    && (forall j, k :: 0 <= j < k < |tokens| ==> tokens[j].end <= tokens[k].start)
  }

  /** A token's span is its piece's. */
  ghost predicate Aligned(p: Piece) {
    p.Lexeme? ==> p.token.start == p.start && p.token.end == p.end
  }

  lemma {:induction false} TokensOrdered(r: Rules, ps: seq<Piece>, i: nat)
    requires r.Sensible() && Tiles(r, ps, i) && forall p :: p in ps ==> Aligned(p)
    ensures Ordered(TokensOf(ps), i)
    decreases |ps|
  {
    if ps != [] {
      var k := |ps| - 1;
      assert PieceAt(r, ps, k);
      TilesPrefix(r, ps, i, k);
      TokensOrdered(r, ps[..k], ps[k].start);
      assert Aligned(ps[k]);
    }
  }

  lemma {:induction false} TokensAre(ps: seq<Piece>, t: Token)
    ensures t in TokensOf(ps) <==> exists k :: 0 <= k < |ps| && ps[k].Lexeme? && ps[k].token == t
    decreases |ps|
  {
    if ps != [] {
      var n := |ps| - 1;
      TokensAre(ps[..n], t);
      if k :| 0 <= k < |ps| && ps[k].Lexeme? && ps[k].token == t {
        assert k < n ==> ps[..n][k] == ps[k];
      }
    }
  }

  /** Every place lies in one piece. */
  lemma {:induction false} PieceFor(r: Rules, ps: seq<Piece>, i: nat, n: nat, x: nat) returns (k: nat)
    requires Tiles(r, ps, i) && n <= |ps| && x < EndOf(ps, n)
    ensures k < n && ps[k].start <= x < ps[k].end
  {
    assert PieceAt(r, ps, n - 1);
    if x >= ps[n - 1].start {
      k := n - 1;
    } else {
      k := PieceFor(r, ps, i, n - 1, x);
    }
  }

  lemma OnePieceFor(r: Rules, ps: seq<Piece>, i: nat, j: nat, k: nat, x: nat)
    requires r.Sensible() && Tiles(r, ps, i) && j < |ps| && k < |ps|
    requires ps[j].start <= x < ps[j].end && ps[k].start <= x < ps[k].end
    ensures j == k
  {
    assert PieceAt(r, ps, j) && PieceAt(r, ps, k);
    if j < k {
      EndsGrow(r, ps, i, j + 1, k);
    } else if k < j {
      EndsGrow(r, ps, i, k + 1, j);
    }
  }
}
