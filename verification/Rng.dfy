/** The seeded xorshift64* generator. */
module Rng {
  import opened Events

  /** A source of draws: how a state yields a unit-interval number, or some bytes, and the
      state that follows. */
  datatype Prng = Prng(unit: bv64 -> (Double, bv64), bytes: (bv64, nat) -> (Bytes, bv64))
  {
    /** As many bytes are drawn as were asked for. */
    ghost predicate Sized() {
      forall s, n: nat :: |bytes(s, n).0| == n
    }
  }

  function Seeded(seed: bv64): bv64 {
    if seed == 0 then 1 else seed
  }

  function Xor(a: bv64, b: bv64): bv64 { a ^ b }

  function Shr12(x: bv64): bv64 { x >> 12 }
  function Shl25(x: bv64): bv64 { x << 25 }
  function Shr27(x: bv64): bv64 { x >> 27 }

  function S1(x: bv64): bv64 { Xor(x, Shr12(x)) }
  function S2(x: bv64): bv64 { Xor(x, Shl25(x)) }
  function S3(x: bv64): bv64 { Xor(x, Shr27(x)) }

  function NextState(x: bv64): bv64 {
    S3(S2(S1(x)))
  }

  const MULTIPLIER: bv64 := 0x2545F4914F6CDD1D

  function WordOf(state: bv64): bv64 {
    state * MULTIPLIER
  }

  function UnitOf(word: bv64): Double {
    Double(word as int / 2048, -53)
  }

  function Unit(x: bv64): (Double, bv64) {
    var s := NextState(x);
    (UnitOf(WordOf(s)), s)
  }

  function LittleEndian(w: bv64): (b: Bytes)
    ensures |b| == 8
  {
    [(w & 0xFF) as bv8, ((w >> 8) & 0xFF) as bv8, ((w >> 16) & 0xFF) as bv8, ((w >> 24) & 0xFF) as bv8,
     ((w >> 32) & 0xFF) as bv8, ((w >> 40) & 0xFF) as bv8, ((w >> 48) & 0xFF) as bv8, ((w >> 56) & 0xFF) as bv8]
  }

  /** The next word, as eight bytes. */
  function WordBytes(x: bv64): (r: (Bytes, bv64))
    ensures |r.0| == 8
  {
    var s := NextState(x);
    (LittleEndian(WordOf(s)), s)
  }

  /** `n` bytes from any source of eight-byte words: whole words first, the last one cut to
      what is left. */
  function FillFrom<S(!new)>(next: S -> (Bytes, S), x: S, n: nat): (r: (Bytes, S))
    requires forall s :: |next(s).0| == 8
    ensures |r.0| == n
    decreases n
  {
    if n == 0 then ([], x)
    else
      var (word, s) := next(x);
      if n <= 8 then (word[..n], s) else Prepend(word, FillFrom(next, s, n - 8))
  }

  function Prepend<S>(front: Bytes, r: (Bytes, S)): (Bytes, S) {
    (front + r.0, r.1)
  }

  function Fill(x: bv64, n: nat): (r: (Bytes, bv64))
    ensures |r.0| == n
  {
    FillFrom(WordBytes, x, n)
  }

  type Generator = g: Prng | g.Sized() ghost witness Prng(Unit, Fill)

  const XORSHIFT: Generator := Prng(Unit, Fill)

  lemma S1Kernel(x: bv64) requires S1(x) == 0 ensures x == 0 {}
  lemma S2Kernel(x: bv64) requires S2(x) == 0 ensures x == 0 {}
  lemma S3Kernel(x: bv64) requires S3(x) == 0 ensures x == 0 {}

  /** The generator never falls into the all-zero state it could not leave. */
  lemma NeverZero(x: bv64)
    requires x != 0
    ensures NextState(x) != 0
  {
    if NextState(x) == 0 {
      S3Kernel(S2(S1(x)));
      S2Kernel(S1(x));
      S1Kernel(x);
    }
  }

  // ----- nothing is lost -----

  function Shr24(x: bv64): bv64 { x >> 24 }
  function Shr48(x: bv64): bv64 { x >> 48 }
  function Shl50(x: bv64): bv64 { x << 50 }
  function Shr54(x: bv64): bv64 { x >> 54 }
  function Gone(x: bv64): bv64 { 0 }

  function Folded(shift: bv64 -> bv64, x: bv64): bv64 {
    Xor(x, shift(x))
  }

  lemma XorMeets(a: bv64, b: bv64, c: bv64)
    ensures Xor(Xor(a, b), Xor(b, c)) == Xor(a, c)
  {
  }

  /** What it takes for folding twice by `once` to be folding by `twice`. */
  ghost predicate Doubles(once: bv64 -> bv64, twice: bv64 -> bv64, x: bv64) {
    once(Xor(x, once(x))) == Xor(once(x), once(once(x))) && once(once(x)) == twice(x)
  }

  lemma FoldedTwice(once: bv64 -> bv64, twice: bv64 -> bv64, x: bv64)
    requires Doubles(once, twice, x)
    ensures Folded(once, Folded(once, x)) == Folded(twice, x)
  {
    XorMeets(x, once(x), twice(x));
  }

  // Shifting is linear, and shifting twice is shifting twice as far, in the end beyond the word.
  lemma Linear12(a: bv64, b: bv64) ensures Shr12(Xor(a, b)) == Xor(Shr12(a), Shr12(b)) {}
  lemma Linear24(a: bv64, b: bv64) ensures Shr24(Xor(a, b)) == Xor(Shr24(a), Shr24(b)) {}
  lemma Linear48(a: bv64, b: bv64) ensures Shr48(Xor(a, b)) == Xor(Shr48(a), Shr48(b)) {}
  lemma Linear25(a: bv64, b: bv64) ensures Shl25(Xor(a, b)) == Xor(Shl25(a), Shl25(b)) {}
  lemma Linear50(a: bv64, b: bv64) ensures Shl50(Xor(a, b)) == Xor(Shl50(a), Shl50(b)) {}
  lemma Linear27(a: bv64, b: bv64) ensures Shr27(Xor(a, b)) == Xor(Shr27(a), Shr27(b)) {}
  lemma Linear54(a: bv64, b: bv64) ensures Shr54(Xor(a, b)) == Xor(Shr54(a), Shr54(b)) {}

  lemma Twice12(x: bv64) ensures Shr12(Shr12(x)) == Shr24(x) {}
  lemma Twice24(x: bv64) ensures Shr24(Shr24(x)) == Shr48(x) {}
  lemma Twice48(x: bv64) ensures Shr48(Shr48(x)) == 0 {}
  lemma Twice25(x: bv64) ensures Shl25(Shl25(x)) == Shl50(x) {}
  lemma Twice50(x: bv64) ensures Shl50(Shl50(x)) == 0 {}
  lemma Twice27(x: bv64) ensures Shr27(Shr27(x)) == Shr54(x) {}
  lemma Twice54(x: bv64) ensures Shr54(Shr54(x)) == 0 {}

  lemma FoldedNothing(x: bv64)
    ensures Folded(Gone, x) == x
  {
  }

  function Undo1(y: bv64): bv64 { Folded(Shr48, Folded(Shr24, Folded(Shr12, y))) }
  function Undo2(y: bv64): bv64 { Folded(Shl50, Folded(Shl25, y)) }
  function Undo3(y: bv64): bv64 { Folded(Shr54, Folded(Shr27, y)) }

  lemma Undone1(x: bv64)
    ensures Undo1(S1(x)) == x
  {
    Twice12(x);
    Twice24(x);
    Twice48(x);
    Linear12(x, Shr12(x));
    FoldedTwice(Shr12, Shr24, x);
    Linear24(x, Shr24(x));
    FoldedTwice(Shr24, Shr48, x);
    Linear48(x, Shr48(x));
    FoldedTwice(Shr48, Gone, x);
    FoldedNothing(x);
  }

  lemma Undone2(x: bv64)
    ensures Undo2(S2(x)) == x
  {
    Twice25(x);
    Twice50(x);
    Linear25(x, Shl25(x));
    FoldedTwice(Shl25, Shl50, x);
    Linear50(x, Shl50(x));
    FoldedTwice(Shl50, Gone, x);
    FoldedNothing(x);
  }

  lemma Undone3(x: bv64)
    ensures Undo3(S3(x)) == x
  {
    Twice27(x);
    Twice54(x);
    Linear27(x, Shr27(x));
    FoldedTwice(Shr27, Shr54, x);
    Linear54(x, Shr54(x));
    FoldedTwice(Shr54, Gone, x);
    FoldedNothing(x);
  }

  /** The step can be undone: it leads from every state to another, and no two states to the same. */
  lemma StepUndone(x: bv64)
    ensures Undo1(Undo2(Undo3(NextState(x)))) == x
  {
    Undone3(S2(S1(x)));
    Undone2(S1(x));
    Undone1(x);
  }

  /** The multiplier is odd, with this inverse modulo 2 to the 64: the word determines the state. */
  lemma MultiplierInverts()
    ensures MULTIPLIER * 0x59071D96D81ECD35 == 1
  {
  }

  /** The number drawn is a fraction below one: the word over 2 to the 64, rounded down to 53 binary places. */
  lemma UnitIsFraction(word: bv64)
    ensures var d := UnitOf(word);
      && d.exponent == -53 && 0 <= d.significand < 0x20_0000_0000_0000
      && d.significand * 2048 <= word as int < (d.significand + 1) * 2048
  {
  }

  /** Eight bytes, the lowest first, make the word again. */
  lemma BytesOfWord(w: bv64)
    ensures var b := LittleEndian(w);
      Low(b[0], b[1], b[2], b[3]) | (Low(b[4], b[5], b[6], b[7]) << 32) == w
  {
  }

  function Low(a: bv8, b: bv8, c: bv8, d: bv8): bv64 {
    (a as bv64) | ((b as bv64) << 8) | ((c as bv64) << 16) | ((d as bv64) << 24)
  }

  /** The state after `j` words. */
  function StateAfter<S>(next: S -> (Bytes, S), x: S, j: nat): S {
    if j == 0 then x else StateAfter(next, next(x).1, j - 1)
  }

  /** Byte `i` of what is filled is byte `i % 8` of word `i / 8`, and no more words are drawn than are begun. */
  lemma {:induction false} FillAt<S(!new)>(next: S -> (Bytes, S), x: S, n: nat)
    requires forall s :: |next(s).0| == 8
    ensures forall i :: 0 <= i < n ==> FillFrom(next, x, n).0[i] == next(StateAfter(next, x, i / 8)).0[i % 8]
    ensures FillFrom(next, x, n).1 == StateAfter(next, x, (n + 7) / 8)
    decreases n
  {
    if n > 8 {
      FillAt(next, next(x).1, n - 8);
      var rest := FillFrom(next, next(x).1, n - 8);
      forall i | 8 <= i < n ensures FillFrom(next, x, n).0[i] == next(StateAfter(next, x, i / 8)).0[i % 8] {
        assert FillFrom(next, x, n).0[i] == rest.0[i - 8];
        assert (i - 8) / 8 == i / 8 - 1 && (i - 8) % 8 == i % 8;
      }
      assert (n - 8 + 7) / 8 == (n + 7) / 8 - 1;
    }
  }

  class SeededRng {
    var state: bv64

    constructor (seed: bv64)
      ensures state == Seeded(seed)
      ensures state != 0
    {
      state := if seed < 1 then 1 else seed;
    }

    method NextU64() returns (word: bv64)
      modifies this
      ensures state == NextState(old(state))
      ensures word == WordOf(state)
      ensures old(state) != 0 ==> state != 0
    {
      if state != 0 { NeverZero(state); }
      var x := state;
      x := S1(x);
      x := S2(x);
      x := S3(x);
      state := x;
      word := WordOf(x);
    }

    method NextF64() returns (v: Double)
      modifies this
      ensures (v, state) == Unit(old(state))
    {
      var r := NextU64();
      v := UnitOf(r);
    }

    method FillBytes(buf: array<bv8>)
      modifies this, buf
      ensures (buf[..], state) == Fill(old(state), buf.Length)
    {
      state := FillArray(WordBytes, state, buf);
    }
  }

  /** Fills `buf` front to back, eight bytes a word, the last word cut short. */
  method FillArray<S(!new)>(next: S -> (Bytes, S), x: S, buf: array<bv8>) returns (s: S)
    requires forall y :: |next(y).0| == 8
    modifies buf
    ensures (buf[..], s) == FillFrom(next, x, buf.Length)
  {
    var i := 0;
    s := x;
    assert [] + FillFrom(next, x, buf.Length).0 == FillFrom(next, x, buf.Length).0;
    while i < buf.Length
      invariant 0 <= i <= buf.Length
      invariant FillFrom(next, x, buf.Length) == Prepend(buf[..i], FillFrom(next, s, buf.Length - i))
    {
      ghost var filled := buf[..i];
      FillStep(next, s, buf.Length - i);
      var word: Bytes;
      word, s := next(s).0, next(s).1;
      var take := if buf.Length - i < 8 then buf.Length - i else 8;
      CopyInto(buf, i, word[..take]);
      PrependTwice(filled, word[..take], FillFrom(next, s, buf.Length - i - take));
      i := i + take;
    }
    assert buf[..] == buf[..buf.Length] == buf[..buf.Length] + [];
  }

  method CopyInto(buf: array<bv8>, at: nat, part: Bytes)
    requires at + |part| <= buf.Length
    modifies buf
    ensures buf[..at + |part|] == old(buf[..at]) + part
    ensures buf[at + |part|..] == old(buf[at + |part|..])
  {
    for k := 0 to |part|
      invariant buf[..at + k] == old(buf[..at]) + part[..k]
      invariant buf[at + |part|..] == old(buf[at + |part|..])
    {
      buf[at + k] := part[k];
      assert buf[..at + k + 1] == buf[..at + k] + [part[k]];
      assert part[..k + 1] == part[..k] + [part[k]];
    }
    assert part[..|part|] == part;
  }

  lemma PrependTwice<S>(a: Bytes, b: Bytes, r: (Bytes, S))
    ensures Prepend(a, Prepend(b, r)) == Prepend(a + b, r)
  {
    assert a + (b + r.0) == a + b + r.0;
  }

  lemma FillStep<S(!new)>(next: S -> (Bytes, S), x: S, n: nat)
    requires n > 0 && forall s :: |next(s).0| == 8
    ensures var take := if n < 8 then n else 8;
            FillFrom(next, x, n) == Prepend(next(x).0[..take], FillFrom(next, next(x).1, n - take))
  {
    if n <= 8 {
      assert next(x).0[..n] + [] == next(x).0[..n];
    } else {
      assert next(x).0[..8] == next(x).0;
    }
  }
}
