/** A feedback register over an arbitrary word type: what follows from its shift being
    linear with a trivial kernel, before any bit is looked at. */
module LinearRegister {

  /** `xor` makes the words a group in which every word is its own inverse; `step` is what
      the register does after each message word has been folded in. */
  datatype Machine<!T(!new)> = Machine(xor: (T, T) -> T, zero: T, step: T -> T)
  {
    ghost predicate Interchange(a: T, b: T, c: T, d: T) {
      xor(xor(a, b), xor(c, d)) == xor(xor(a, c), xor(b, d))
    }

    ghost predicate Additive(x: T, y: T) {
      step(xor(x, y)) == xor(step(x), step(y))
    }

    ghost predicate Group() {
      && (forall x :: xor(x, zero) == x && xor(zero, x) == x)
      && (forall x, y :: xor(x, y) == zero <==> x == y)
      && (forall a, b, c, d :: Interchange(a, b, c, d))
    }

    ghost predicate Linear() {
      && (forall x, y :: Additive(x, y))
      && (forall x :: step(x) == zero ==> x == zero)
    }

    ghost predicate Valid() {
      Group() && Linear()
    }
  }

  function Iterate<T>(f: T -> T, x: T, n: nat): T {
    if n == 0 then x else f(Iterate(f, x, n - 1))
  }

  /** The register after a message, starting from `c`. */
  function Run<T(!new)>(m: Machine<T>, c: T, msg: seq<T>): T {
    if msg == [] then c else m.step(m.xor(Run(m, c, msg[..|msg| - 1]), msg[|msg| - 1]))
  }

  function Diff<T(!new)>(m: Machine<T>, u: seq<T>, v: seq<T>): seq<T>
    requires |u| == |v|
  {
    seq(|u|, i requires 0 <= i < |u| => m.xor(u[i], v[i]))
  }

  lemma {:induction false} IterateLinear<T(!new)>(m: Machine<T>, x: T, y: T, n: nat)
    requires m.Valid()
    ensures Iterate(m.step, m.xor(x, y), n) == m.xor(Iterate(m.step, x, n), Iterate(m.step, y, n))
    ensures Iterate(m.step, x, n) == m.zero ==> x == m.zero
  {
    if n > 0 {
      IterateLinear(m, x, y, n - 1);
      assert m.Additive(Iterate(m.step, x, n - 1), Iterate(m.step, y, n - 1));
    }
  }

  /** A step made of two linear parts is linear. */
  lemma SumLinear<T(!new)>(m: Machine<T>, f: T -> T, g: T -> T, x: T, y: T)
    requires m.Group()
    requires f(m.xor(x, y)) == m.xor(f(x), f(y)) && g(m.xor(x, y)) == m.xor(g(x), g(y))
    requires forall z :: m.step(z) == m.xor(f(z), g(z))
    ensures m.step(m.xor(x, y)) == m.xor(m.step(x), m.step(y))
  {
    assert m.Interchange(f(x), f(y), g(x), g(y));
  }

  lemma IteratedMachine<T(!new)>(m: Machine<T>, k: nat, mk: Machine<T>)
    requires m.Valid() && mk.xor == m.xor && mk.zero == m.zero
    requires forall x :: mk.step(x) == Iterate(m.step, x, k)
    ensures mk.Valid()
  {
    forall x, y ensures mk.Additive(x, y) {
      IterateLinear(m, x, y, k);
    }
    forall x ensures mk.step(x) == mk.zero ==> x == mk.zero {
      IterateLinear(m, x, x, k);
    }
    forall a, b, c, d ensures mk.Interchange(a, b, c, d) {
      assert m.Interchange(a, b, c, d);
    }
  }

  /** Two runs differ by the run on their differences. */
  lemma {:induction false} RunLinear<T(!new)>(m: Machine<T>, c: T, d: T, u: seq<T>, v: seq<T>)
    requires m.Valid() && |u| == |v|
    ensures m.xor(Run(m, c, u), Run(m, d, v)) == Run(m, m.xor(c, d), Diff(m, u, v))
  {
    if u != [] {
      var n := |u| - 1;
      RunLinear(m, c, d, u[..n], v[..n]);
      assert Diff(m, u, v)[..n] == Diff(m, u[..n], v[..n]);
      var x, y := Run(m, c, u[..n]), Run(m, d, v[..n]);
      assert m.Additive(m.xor(x, u[n]), m.xor(y, v[n])) && m.Interchange(x, u[n], y, v[n]);
    }
  }

  lemma {:induction false} RunAppend<T(!new)>(m: Machine<T>, c: T, a: seq<T>, b: seq<T>)
    ensures Run(m, c, a + b) == Run(m, Run(m, c, a), b)
  {
    if b == [] {
      assert a + b == a;
    } else {
      var n := |b| - 1;
      assert (a + b)[..|a + b| - 1] == a + b[..n];
      RunAppend(m, c, a, b[..n]);
    }
  }

  /** Equal messages never bring two different registers back together. */
  lemma {:induction false} RunKeepsDifference<T(!new)>(m: Machine<T>, c: T, d: T, msg: seq<T>)
    requires m.Valid()
    requires Run(m, c, msg) == Run(m, d, msg)
    ensures c == d
  {
    if msg != [] {
      var n := |msg| - 1;
      var x, y, w := Run(m, c, msg[..n]), Run(m, d, msg[..n]), msg[n];
      assert m.Additive(m.xor(x, w), m.xor(y, w)) && m.Interchange(x, w, y, w);
      assert m.step(m.xor(x, y)) == m.zero;
      RunKeepsDifference(m, c, d, msg[..n]);
    }
  }

  /** Messages that differ only in a window, and end in the same register, leave a zero
      difference there, however the window is padded. */
  lemma WindowSurvives<T(!new)>(m: Machine<T>, c: T, before: seq<T>, u: seq<T>, v: seq<T>, after: seq<T>, pad: seq<T>)
    requires m.Valid() && |u| == |v|
    requires Run(m, c, before + u + after) == Run(m, c, before + v + after)
    ensures Run(m, m.zero, Diff(m, u + pad, v + pad)) == m.zero
  {
    var x := Run(m, c, before);
    RunAppend(m, c, before + u, after);
    RunAppend(m, c, before + v, after);
    RunKeepsDifference(m, Run(m, c, before + u), Run(m, c, before + v), after);
    RunAppend(m, c, before, u);
    RunAppend(m, c, before, v);
    RunAppend(m, x, u, pad);
    RunAppend(m, x, v, pad);
    RunLinear(m, x, x, u + pad, v + pad);
  }

  /** Four words through the register. `b1`, `c2` and `d3` are where the later words would
      have to sit for plain steps to bring them down in time; if the window leaves no trace,
      the word they make together is zero. */
  lemma WindowWord<T(!new)>(m: Machine<T>, w: seq<T>, b1: T, c2: T, c1: T, d3: T, d2: T, d1: T)
    requires m.Valid() && |w| == 4
    requires m.step(b1) == w[1]
    requires m.step(c2) == c1 && m.step(c1) == w[2]
    requires m.step(d3) == d2 && m.step(d2) == d1 && m.step(d1) == w[3]
    requires Run(m, m.zero, w) == m.zero
    ensures m.xor(m.xor(w[0], b1), m.xor(c2, d3)) == m.zero
  {
    var f, z := m.step, m.zero;
    var r1 := f(w[0]);
    var r2 := f(m.xor(r1, w[1]));
    var r3 := f(m.xor(r2, w[2]));
    assert Run(m, z, w) == f(m.xor(r3, w[3])) by {
      assert w[..1][..0] == w[..0] && w[..2][..1] == w[..1] && w[..3][..2] == w[..2];
      assert Run(m, z, w[..0]) == z && Run(m, z, w[..1]) == r1;
      assert Run(m, z, w[..2]) == r2;
      assert Run(m, z, w[..3]) == r3;
    }
    var word := m.xor(m.xor(w[0], b1), m.xor(c2, d3));
    assert m.Additive(m.xor(w[0], b1), m.xor(c2, d3)) && m.Additive(w[0], b1) && m.Additive(c2, d3);
    assert f(word) == m.xor(m.xor(r1, w[1]), m.xor(c1, d2));
    assert m.Additive(m.xor(r1, w[1]), m.xor(c1, d2)) && m.Additive(c1, d2);
    Regroup(m, r2, w[2], d1);
    assert f(f(word)) == m.xor(m.xor(r2, w[2]), d1);
    assert m.Additive(m.xor(r2, w[2]), d1);
    assert f(f(f(word))) == m.xor(r3, w[3]);
  }

  lemma Recombine<T(!new)>(m: Machine<T>, x: T, low: T, high: T, rest: T)
    requires m.Valid() && x == m.xor(low, high) && m.step(high) == rest
    ensures m.step(x) == m.xor(m.step(low), rest)
  {
    assert m.Additive(low, high);
  }

  lemma Regroup<T(!new)>(m: Machine<T>, a: T, b: T, c: T)
    requires m.Group()
    ensures m.xor(a, m.xor(b, c)) == m.xor(m.xor(a, b), c)
  {
    assert m.Interchange(a, m.zero, b, c);
  }
}

/** CRC-32 as the group log frames its records with it: the bit-at-a-time loop,
    the table form it must agree with, and the damage it always detects. */
module Crc {
  import opened LinearRegister

  const POLY: bv32 := 0xEDB8_8320

  function Xor(a: bv32, b: bv32): bv32 {
    a ^ b
  }

  function Half(c: bv32): bv32 {
    c >> 1
  }

  function Fold(c: bv32): bv32 {
    if c & 1 == 1 then POLY else 0
  }

  /** One shift of the register: halve it, and fold the polynomial in when a one falls out. */
  function Shift(c: bv32): bv32 {
    Xor(Half(c), Fold(c))
  }

  function EightShifts(c: bv32): bv32 {
    Iterate(Shift, c, 8)
  }

  function Word(b: bv8): bv32 {
    b as bv32
  }

  function Words(bytes: seq<bv8>): (ws: seq<bv32>)
    ensures |ws| == |bytes|
    ensures forall i :: 0 <= i < |ws| ==> ws[i] == Word(bytes[i])
  {
    seq(|bytes|, i requires 0 <= i < |bytes| => Word(bytes[i]))
  }

  // A byte placed one, two or three bytes up the register.
  function Up8(b: bv8): bv32 { (b as bv32) << 8 }
  function Up16(b: bv8): bv32 { (b as bv32) << 16 }
  function Up24(b: bv8): bv32 { (b as bv32) << 24 }

  const BIT: Machine<bv32> := Machine(Xor, 0, Shift)
  const BYTE: Machine<bv32> := Machine(Xor, 0, EightShifts)
  const ONES: bv32 := 0xFFFF_FFFF

  function Crc32(bytes: seq<bv8>): bv32 {
    Xor(Run(BYTE, ONES, Words(bytes)), ONES)
  }

  // ----- the table form of section 8 of RFC 1952 -----

  /** Entry `n` of the 256-entry table: `n` after eight shifts. */
  function TableEntry(n: bv8): bv32 {
    EightShifts(Word(n))
  }

  function TableStep(c: bv32, b: bv8): bv32 {
    Xor(TableEntry(Low(Xor(c, Word(b)))), c >> 8)
  }

  function TableUpdate(c: bv32, bytes: seq<bv8>): bv32 {
    if bytes == [] then c else TableStep(TableUpdate(c, bytes[..|bytes| - 1]), bytes[|bytes| - 1])
  }

  function TableCrc(bytes: seq<bv8>): bv32 {
    Xor(TableUpdate(ONES, bytes), ONES)
  }

  // ----- bit facts -----

  lemma XorAssociative(a: bv32, b: bv32, c: bv32)
    ensures Xor(Xor(a, b), c) == Xor(a, Xor(b, c))
  {
  }

  lemma XorInterchange(a: bv32, b: bv32, c: bv32, d: bv32)
    ensures Xor(Xor(a, b), Xor(c, d)) == Xor(Xor(a, c), Xor(b, d))
  {
    XorAssociative(a, b, Xor(c, d));
    XorAssociative(b, c, d);
    assert Xor(b, c) == Xor(c, b);
    XorAssociative(c, b, d);
    XorAssociative(a, c, Xor(b, d));
  }

  lemma XorZero(a: bv32, b: bv32)
    ensures Xor(a, 0) == a == Xor(0, a)
    ensures Xor(a, b) == 0 <==> a == b
  {
    XorNeutral(a);
    XorNeutral(b);
    XorAssociative(a, a, b);
  }

  lemma XorNeutral(a: bv32)
    ensures Xor(a, 0) == a == Xor(0, a) && Xor(a, a) == 0
  {
  }

  lemma HalfLinear(x: bv32, y: bv32)
    ensures Half(Xor(x, y)) == Xor(Half(x), Half(y))
  {
  }

  lemma FoldLinear(x: bv32, y: bv32)
    ensures Fold(Xor(x, y)) == Xor(Fold(x), Fold(y))
  {
  }

  /** The polynomial's top bit is set, so a shift cannot cancel a one that falls out. */
  lemma ShiftKernel(x: bv32)
    requires Xor(Half(x), Fold(x)) == 0
    ensures x == 0
  {
  }

  lemma LowBitEven(x: bv32)
    requires x & 1 == 0
    ensures Fold(x) == 0
  {
  }

  lemma ShiftEven(x: bv32)
    requires x & 1 == 0
    ensures Shift(x) == Half(x)
  {
    LowBitEven(x);
    XorZero(Half(x), 0);
  }

  lemma MaskForm(c: bv32)
    ensures 0xEDB8_8320 & (0 - (c & 1)) == if c & 1 == 1 then 0xEDB8_8320 as bv32 else 0
  {
  }

  lemma LowByteZero(x: bv32)
    requires x & 0xFF == 0
    ensures x & 1 == 0 && (x >> 1) & 1 == 0 && (x >> 2) & 1 == 0 && (x >> 3) & 1 == 0
    ensures (x >> 4) & 1 == 0 && (x >> 5) & 1 == 0 && (x >> 6) & 1 == 0 && (x >> 7) & 1 == 0
  {
  }

  lemma HalfChain(x: bv32)
    ensures Half(x) == x >> 1 && Half(x >> 1) == x >> 2 && Half(x >> 2) == x >> 3 && Half(x >> 3) == x >> 4
    ensures Half(x >> 4) == x >> 5 && Half(x >> 5) == x >> 6 && Half(x >> 6) == x >> 7 && Half(x >> 7) == x >> 8
  {
  }

  function Low(x: bv32): bv8 {
    (x & 0xFF) as bv8
  }

  /** The word with its low byte's place left empty. */
  function High(x: bv32): bv32 {
    x & 0xFFFF_FF00
  }

  lemma SplitWord(x: bv32)
    ensures x == Xor(Word(Low(x)), High(x))
  {
  }

  lemma HighBits(x: bv32)
    ensures High(x) & 0xFF == 0 && High(x) >> 8 == x >> 8
  {
  }

  lemma ByteAbove(c: bv32, b: bv8)
    ensures Xor(c, Word(b)) >> 8 == c >> 8
  {
  }

  lemma LanesApart(a: bv8, b: bv8, c: bv8, d: bv8)
    requires Xor(Xor(Word(a), Up8(b)), Xor(Up16(c), Up24(d))) == 0
    ensures a == 0 && b == 0 && c == 0 && d == 0
  {
  }

  lemma ByteXor(a: bv8, b: bv8)
    ensures Xor(Word(a), Word(b)) == Word(a ^ b)
  {
  }

  // ----- the register is a linear machine -----

  lemma BitMachine()
    ensures BIT.Valid()
  {
    forall x ensures Xor(x, 0) == x && Xor(0, x) == x { XorZero(x, 0); }
    forall x, y ensures Xor(x, y) == 0 <==> x == y { XorZero(x, y); }
    forall a, b, c, d ensures BIT.Interchange(a, b, c, d) { XorInterchange(a, b, c, d); }
    forall x, y ensures BIT.Additive(x, y) {
      HalfLinear(x, y);
      FoldLinear(x, y);
      SumLinear(BIT, Half, Fold, x, y);
    }
    forall x ensures BIT.step(x) == 0 ==> x == 0 {
      if BIT.step(x) == 0 { ShiftKernel(x); }
    }
  }

  lemma ByteMachine()
    ensures BYTE.Valid()
  {
    BitMachine();
    IteratedMachine(BIT, 8, BYTE);
  }

  /** Eight zero low bits pass through the register untouched by the polynomial. */
  lemma WholeByteDown(x: bv32)
    requires x & 0xFF == 0
    ensures EightShifts(x) == x >> 8
  {
    LowByteZero(x);
    HalfChain(x);
    ShiftEven(x);
    ShiftEven(x >> 1);
    ShiftEven(x >> 2);
    ShiftEven(x >> 3);
    ShiftEven(x >> 4);
    ShiftEven(x >> 5);
    ShiftEven(x >> 6);
    ShiftEven(x >> 7);
    assert Iterate(Shift, x, 1) == Shift(Iterate(Shift, x, 0));
    assert Iterate(Shift, x, 2) == Shift(Iterate(Shift, x, 1));
    assert Iterate(Shift, x, 4) == Shift(Shift(Iterate(Shift, x, 2)));
    assert Iterate(Shift, x, 6) == Shift(Shift(Iterate(Shift, x, 4)));
  }

  lemma HighDown(c: bv32, b: bv8)
    ensures BYTE.step(High(Xor(c, Word(b)))) == c >> 8
  {
    ByteAbove(c, b);
    HighOnly(Xor(c, Word(b)));
  }

  lemma HighOnly(x: bv32)
    ensures EightShifts(High(x)) == x >> 8
  {
    HighBits(x);
    WholeByteDown(High(x));
  }

  /** One byte through the bitwise register is one table look-up. */
  lemma ByteIsTable(c: bv32, b: bv8)
    ensures BYTE.step(BYTE.xor(c, Word(b))) == TableStep(c, b)
  {
    ByteMachine();
    var x := Xor(c, Word(b));
    SplitWord(x);
    HighDown(c, b);
    Recombine(BYTE, x, Word(Low(x)), High(x), c >> 8);
  }

  /** The bit-at-a-time register and the table-driven one agree on every message. */
  lemma {:induction false} RegisterIsTable(c: bv32, bytes: seq<bv8>)
    ensures Run(BYTE, c, Words(bytes)) == TableUpdate(c, bytes)
  {
    if bytes != [] {
      var n := |bytes| - 1;
      assert Words(bytes)[..n] == Words(bytes[..n]);
      RegisterIsTable(c, bytes[..n]);
      ByteIsTable(TableUpdate(c, bytes[..n]), bytes[n]);
    }
  }

  /** The branchless shift: `mask` is all ones exactly when the low bit is set. */
  method ShiftBit(c: bv32) returns (crc: bv32)
    ensures crc == Shift(c)
  {
    MaskForm(c);
    var mask := 0 - (c & 1);
    crc := (c >> 1) ^ (POLY & mask);
  }

  /** The inner loop. */
  method ShiftByte(c: bv32) returns (crc: bv32)
    ensures crc == EightShifts(c)
  {
    crc := c;
    for k := 0 to 8
      invariant crc == Iterate(Shift, c, k)
    {
      crc := ShiftBit(crc);
    }
  }

  /** The checksum of the group log, computed the way its loop does, is the one section 8
      of RFC 1952 defines by table. */
  method ComputeCrc32(bytes: seq<bv8>) returns (sum: bv32)
    ensures sum == Crc32(bytes) == TableCrc(bytes)
  {
    var crc: bv32 := ONES;
    for i := 0 to |bytes|
      invariant crc == Run(BYTE, ONES, Words(bytes[..i]))
    {
      RunSnoc(ONES, bytes, i);
      crc := ShiftByte(Xor(crc, Word(bytes[i])));
    }
    assert bytes[..|bytes|] == bytes;
    RegisterIsTable(ONES, bytes);
    sum := Xor(crc, ONES);
  }

  lemma RunSnoc(c: bv32, bytes: seq<bv8>, i: nat)
    requires i < |bytes|
    ensures Run(BYTE, c, Words(bytes[..i + 1])) == BYTE.step(BYTE.xor(Run(BYTE, c, Words(bytes[..i])), Word(bytes[i])))
  {
    assert Words(bytes[..i + 1])[..i] == Words(bytes[..i]);
  }

  lemma LaneDown(b: bv8)
    ensures BYTE.step(Up8(b)) == Word(b)
  {
    assert Up8(b) & 0xFF == 0 && Up8(b) >> 8 == Word(b);
    WholeByteDown(Up8(b));
  }

  lemma LaneDown2(b: bv8)
    ensures BYTE.step(Up16(b)) == Up8(b)
  {
    assert Up16(b) & 0xFF == 0 && Up16(b) >> 8 == Up8(b);
    WholeByteDown(Up16(b));
  }

  lemma LaneDown3(b: bv8)
    ensures BYTE.step(Up24(b)) == Up16(b)
  {
    assert Up24(b) & 0xFF == 0 && Up24(b) >> 8 == Up16(b);
    WholeByteDown(Up24(b));
  }

  /** A machine that brings every lane down one byte per step. */
  ghost predicate Lanes(m: Machine<bv32>) {
    && m.Valid() && m.xor == Xor && m.zero == 0
    && forall b :: m.step(Up8(b)) == Word(b) && m.step(Up16(b)) == Up8(b) && m.step(Up24(b)) == Up16(b)
  }

  lemma ByteMachineHasLanes()
    ensures Lanes(BYTE)
  {
    ByteMachine();
    forall b ensures BYTE.step(Up8(b)) == Word(b) && BYTE.step(Up16(b)) == Up8(b) && BYTE.step(Up24(b)) == Up16(b) {
      LaneDown(b);
      LaneDown2(b);
      LaneDown3(b);
    }
  }

  /** Four damaged bytes are never invisible to the register. */
  lemma WindowIsEqual(m: Machine<bv32>, u: seq<bv8>, v: seq<bv8>)
    requires Lanes(m) && |u| == |v| == 4
    requires Run(m, m.zero, Diff(m, Words(u), Words(v))) == m.zero
    ensures u == v
  {
    var w := Diff(m, Words(u), Words(v));
    var a := ByteDelta(m, u[0], v[0]);
    var b := ByteDelta(m, u[1], v[1]);
    var c := ByteDelta(m, u[2], v[2]);
    var d := ByteDelta(m, u[3], v[3]);
    QuietLanes(m, w, a, b, c, d);
  }

  lemma ByteDelta(m: Machine<bv32>, a: bv8, b: bv8) returns (d: bv8)
    requires m.xor == Xor
    ensures m.xor(Word(a), Word(b)) == Word(d)
    ensures d == 0 ==> a == b
  {
    d := a ^ b;
    ByteXor(a, b);
  }

  lemma QuietLanes(m: Machine<bv32>, w: seq<bv32>, a: bv8, b: bv8, c: bv8, d: bv8)
    requires Lanes(m) && w == [Word(a), Word(b), Word(c), Word(d)]
    requires Run(m, m.zero, w) == m.zero
    ensures a == 0 && b == 0 && c == 0 && d == 0
  {
    WindowWord(m, w, Up8(b), Up16(c), Up8(c), Up24(d), Up16(d), Up8(d));
    LanesApart(a, b, c, d);
  }

  lemma SameUnderXor(x: bv32, y: bv32, z: bv32)
    requires Xor(x, z) == Xor(y, z)
    ensures x == y
  {
  }

  lemma WordsAppend(a: seq<bv8>, b: seq<bv8>, c: seq<bv8>)
    ensures Words(a + b + c) == Words(a) + Words(b) + Words(c)
  {
  }

  /** Burst detection: messages that differ only inside at most four consecutive bytes have
      the same checksum exactly when they are the same message. */
  lemma BurstDetected(before: seq<bv8>, u: seq<bv8>, v: seq<bv8>, after: seq<bv8>)
    requires |u| == |v| <= 4
    ensures Crc32(before + u + after) == Crc32(before + v + after) <==> u == v
  {
    if Crc32(before + u + after) == Crc32(before + v + after) {
      ByteMachineHasLanes();
      WordsAppend(before, u, after);
      WordsAppend(before, v, after);
      var x := Run(BYTE, ONES, Words(before + u + after));
      var y := Run(BYTE, ONES, Words(before + v + after));
      SameUnderXor(x, y, ONES);
      var pad: seq<bv8> := seq(4 - |u|, _ => 0);
      WindowSurvives(BYTE, ONES, Words(before), Words(u), Words(v), Words(after), Words(pad));
      WordsAppend(u, pad, []);
      WordsAppend(v, pad, []);
      assert u + pad + [] == u + pad && v + pad + [] == v + pad;
      assert Words(u) + Words(pad) + Words([]) == Words(u) + Words(pad);
      assert Words(v) + Words(pad) + Words([]) == Words(v) + Words(pad);
      WindowIsEqual(BYTE, u + pad, v + pad);
      assert u == (u + pad)[..|u|] && v == (v + pad)[..|v|];
    }
  }

  // ----- the polynomial and the check value -----

  /** The coefficient of the term of degree `e`, in a register whose lowest bit is the highest term. */
  function Term(e: nat): bv32
    requires e < 32
  {
    1 << (31 - e)
  }

  /** The polynomial of section 8 of RFC 1952. */
  lemma PolynomialIs()
    ensures POLY == Term(26) | Term(23) | Term(22) | Term(16) | Term(12) | Term(11) | Term(10)
                  | Term(8) | Term(7) | Term(5) | Term(4) | Term(2) | Term(1) | Term(0)
  {
  }

  lemma EightTo(x: bv32, a: bv32, b: bv32, c: bv32, d: bv32, e: bv32, f: bv32, g: bv32, h: bv32)
    requires Shift(x) == a && Shift(a) == b && Shift(b) == c && Shift(c) == d
    requires Shift(d) == e && Shift(e) == f && Shift(f) == g && Shift(g) == h
    ensures EightShifts(x) == h
  {
    assert Iterate(Shift, x, 1) == Shift(Iterate(Shift, x, 0));
    assert Iterate(Shift, x, 2) == Shift(Iterate(Shift, x, 1));
    assert Iterate(Shift, x, 4) == Shift(Shift(Iterate(Shift, x, 2)));
    assert Iterate(Shift, x, 6) == Shift(Shift(Iterate(Shift, x, 4)));
  }

  /** The digits 1 to 9. */
  const DIGITS: seq<bv8> := [0x31, 0x32, 0x33, 0x34, 0x35, 0x36, 0x37, 0x38, 0x39]

  /** The register before each digit, and after the last. */
  const REGISTERS: seq<bv32> := [
    0xFFFF_FFFF, 0x7C23_1048, 0xB0AC_BB32, 0x77B7_9C2D, 0x641C_1F5C,
    0x340A_C5E3, 0xF68D_2C9E, 0xAFFC_9660, 0x651F_2550, 0x340B_C6D9]

  predicate StepsTo(r: bv32, b: bv8, s: bv32) {
    EightShifts(Xor(r, Word(b))) == s
  }

  lemma Digit1()
    ensures StepsTo(0xFFFFFFFF, 0x31, 0x7C231048)
  {
    EightTo(0xFFFFFFCE, 0x7FFFFFE7, 0xD2477CD3, 0x849B3D49,
            0xAFF51D84, 0x57FA8EC2, 0x2BFD4761, 0xF8462090, 0x7C231048);
  }

  lemma Digit2()
    ensures StepsTo(0x7C231048, 0x32, 0xB0ACBB32)
  {
    EightTo(0x7C23107A, 0x3E11883D, 0xF2B0473E, 0x7958239F,
            0xD11492EF, 0x8532CA57, 0xAF21E60B, 0xBA287025, 0xB0ACBB32);
  }

  lemma Digit3()
    ensures StepsTo(0xB0ACBB32, 0x33, 0x77B79C2D)
  {
    EightTo(0xB0ACBB01, 0xB5EEDEA0, 0x5AF76F50, 0x2D7BB7A8,
            0x16BDDBD4, 0x0B5EEDEA, 0x05AF76F5, 0xEF6F385A, 0x77B79C2D);
  }

  lemma Digit4()
    ensures StepsTo(0x77B79C2D, 0x34, 0x641C1F5C)
  {
    EightTo(0x77B79C19, 0xD6634D2C, 0x6B31A696, 0x3598D34B,
            0xF774EA85, 0x9602F662, 0x4B017B31, 0xC8383EB8, 0x641C1F5C);
  }

  lemma Digit5()
    ensures StepsTo(0x641C1F5C, 0x35, 0x340AC5E3)
  {
    EightTo(0x641C1F69, 0xDFB68C94, 0x6FDB464A, 0x37EDA325,
            0xF64E52B2, 0x7B272959, 0xD02B178C, 0x68158BC6, 0x340AC5E3);
  }

  lemma Digit6()
    ensures StepsTo(0x340AC5E3, 0x36, 0xF68D2C9E)
  {
    EightTo(0x340AC5D5, 0xF7BDE1CA, 0x7BDEF0E5, 0xD057FB52,
            0x682BFDA9, 0xD9AD7DF4, 0x6CD6BEFA, 0x366B5F7D, 0xF68D2C9E);
  }

  lemma Digit7()
    ensures StepsTo(0xF68D2C9E, 0x37, 0xAFFC9660)
  {
    EightTo(0xF68D2CA9, 0x96FE1574, 0x4B7F0ABA, 0x25BF855D,
            0xFF67418E, 0x7FB3A0C7, 0xD2615343, 0x84882A81, 0xAFFC9660);
  }

  lemma Digit8()
    ensures StepsTo(0xAFFC9660, 0x38, 0x651F2550)
  {
    EightTo(0xAFFC9658, 0x57FE4B2C, 0x2BFF2596, 0x15FF92CB,
            0xE7474A45, 0x9E1B2602, 0x4F0D9301, 0xCA3E4AA0, 0x651F2550);
  }

  lemma Digit9()
    ensures StepsTo(0x651F2550, 0x39, 0x340BC6D9)
  {
    EightTo(0x651F2569, 0xDF371194, 0x6F9B88CA, 0x37CDC465,
            0xF65E6112, 0x7B2F3089, 0xD02F1B64, 0x68178DB2, 0x340BC6D9);
  }

  lemma {:induction false} RunSteps(bytes: seq<bv8>, registers: seq<bv32>, k: nat)
    requires |registers| == |bytes| + 1 && registers[0] == ONES && k <= |bytes|
    requires forall i :: 0 <= i < |bytes| ==> StepsTo(registers[i], bytes[i], registers[i + 1])
    ensures Run(BYTE, ONES, Words(bytes[..k])) == registers[k]
  {
    if k > 0 {
      RunSteps(bytes, registers, k - 1);
      RunSnoc(ONES, bytes, k - 1);
      assert StepsTo(registers[k - 1], bytes[k - 1], registers[k]);
    }
  }

  lemma FirstDigits(i: nat)
    requires i < 5
    ensures StepsTo(REGISTERS[i], DIGITS[i], REGISTERS[i + 1])
  {
    if i == 0 { Digit1(); }
    if i == 1 { Digit2(); }
    if i == 2 { Digit3(); }
    if i == 3 { Digit4(); }
    if i == 4 { Digit5(); }
  }

  lemma LastDigits(i: nat)
    requires 5 <= i < 9
    ensures StepsTo(REGISTERS[i], DIGITS[i], REGISTERS[i + 1])
  {
    if i == 5 { Digit6(); }
    if i == 6 { Digit7(); }
    if i == 7 { Digit8(); }
    if i == 8 { Digit9(); }
  }

  lemma RunDigits()
    ensures Run(BYTE, ONES, Words(DIGITS)) == REGISTERS[9]
  {
    forall i | 0 <= i < 9 ensures StepsTo(REGISTERS[i], DIGITS[i], REGISTERS[i + 1]) {
      if i < 5 { FirstDigits(i); } else { LastDigits(i); }
    }
    RunSteps(DIGITS, REGISTERS, 9);
    assert DIGITS[..9] == DIGITS;
  }

  /** The published check value of CRC-32. */
  lemma CheckValue()
    ensures Crc32(DIGITS) == 0xCBF4_3926
  {
    RunDigits();
  }
}
