/** A framing that keeps every reading: a checksum, the record's number and the event, written as
    numbers in binary digits. It shows that what the log asks of its framing can be had. */
module Framing {
  import opened Wrappers
  import opened Events
  import opened GroupLog

  const ZERO_DIGIT: bv8 := 48
  const ONE_DIGIT: bv8 := 49
  const COMMA: bv8 := 44

  // ----- numbers -----

  /** Binary digits from the lowest up, and a comma. */
  function Num(n: nat): (b: Bytes)
    ensures |b| > 0
  {
    if n == 0 then [COMMA] else [if n % 2 == 1 then ONE_DIGIT else ZERO_DIGIT] + Num(n / 2)
  }

  function ReadNum(b: Bytes): (r: Option<(nat, Bytes)>)
    ensures r.Some? ==> |r.value.1| < |b|
  {
    if b == [] then None
    else if b[0] == COMMA then Some((0, b[1..]))
    else if b[0] == ZERO_DIGIT || b[0] == ONE_DIGIT then
      match ReadNum(b[1..])
      case None => None
      case Some((n, rest)) => Some((2 * n + (if b[0] == ONE_DIGIT then 1 else 0), rest))
    else None
  }

  function Nums(ns: seq<nat>): Bytes {
    if ns == [] then [] else Num(ns[0]) + Nums(ns[1..])
  }

  function ReadNums(b: Bytes): Option<seq<nat>>
    decreases |b|
  {
    if b == [] then Some([])
    else
      match ReadNum(b)
      case None => None
      case Some((n, rest)) => match ReadNums(rest) case None => None case Some(ns) => Some([n] + ns)
  }

  lemma {:induction false} NumReads(n: nat, rest: Bytes)
    ensures ReadNum(Num(n) + rest) == Some((n, rest))
  {
    var b := Num(n) + rest;
    if n == 0 {
      assert b[1..] == rest;
    } else {
      NumReads(n / 2, rest);
      assert b[1..] == Num(n / 2) + rest;
    }
  }

  lemma {:induction false} NumsRead(ns: seq<nat>)
    ensures ReadNums(Nums(ns)) == Some(ns)
  {
    if ns != [] {
      NumReads(ns[0], Nums(ns[1..]));
      NumsRead(ns[1..]);
      assert [ns[0]] + ns[1..] == ns;
    }
  }

  predicate Plain(b: Bytes) {
    forall k :: 0 <= k < |b| ==> b[k] != NEWLINE
  }

  lemma {:induction false} NumPlain(n: nat)
    ensures Plain(Num(n))
  {
    if n > 0 {
      NumPlain(n / 2);
    }
  }

  lemma {:induction false} NumsPlain(ns: seq<nat>)
    ensures Plain(Nums(ns))
  {
    if ns != [] {
      NumPlain(ns[0]);
      NumsPlain(ns[1..]);
    }
  }

  // ----- readings as numbers -----

  function IntNums(i: int): seq<nat> {
    if i < 0 then [1, -i] else [0, i]
  }

  function DoubleNums(d: Double): seq<nat> {
    IntNums(d.significand) + IntNums(d.exponent)
  }

  function Each<A, B>(f: A -> B, s: seq<A>): seq<B> {
    seq(|s|, k requires 0 <= k < |s| => f(s[k]))
  }

  function ByteNum(b: bv8): nat {
    b as int
  }

  function NumByte(n: nat): bv8 {
    if n < 256 then n as bv8 else 0
  }

  function EventNums(e: Event): seq<nat>
    requires e.IsReading()
  {
    match e
    case ClockRead(d) => [0] + DoubleNums(d)
    case RandomRead(d) => [1] + DoubleNums(d)
    case MonotonicRead(d) => [2] + DoubleNums(d)
    case BytesRead(b) => [3] + Each(ByteNum, b)
  }

  function ToInt(sign: nat, n: nat): int {
    if sign == 1 then 0 - (n as int) else n as int
  }

  function ToDouble(ns: seq<nat>): Double
    requires |ns| == 4
  {
    Double(ToInt(ns[0], ns[1]), ToInt(ns[2], ns[3]))
  }

  function EventOf(ns: seq<nat>): Option<Event> {
    if ns == [] then None
    else if ns[0] == 3 then Some(BytesRead(Each(NumByte, ns[1..])))
    else if |ns| != 5 then None
    else if ns[0] == 0 then Some(ClockRead(ToDouble(ns[1..])))
    else if ns[0] == 1 then Some(RandomRead(ToDouble(ns[1..])))
    else if ns[0] == 2 then Some(MonotonicRead(ToDouble(ns[1..])))
    else None
  }

  lemma ByteReads(b: bv8)
    ensures NumByte(ByteNum(b)) == b
  {
  }

  lemma EachBack<A, B>(f: A -> B, g: B -> A, s: seq<A>)
    requires forall k :: 0 <= k < |s| ==> g(f(s[k])) == s[k]
    ensures Each(g, Each(f, s)) == s
  {
  }

  lemma ByteListReads(b: Bytes)
    ensures Each(NumByte, Each(ByteNum, b)) == b
  {
    forall k | 0 <= k < |b| ensures NumByte(ByteNum(b[k])) == b[k] {
      ByteReads(b[k]);
    }
    EachBack(ByteNum, NumByte, b);
  }

  lemma DoubleReads(d: Double)
    ensures |DoubleNums(d)| == 4 && ToDouble(DoubleNums(d)) == d
  {
  }

  lemma TailOf(n: nat, ns: seq<nat>)
    ensures ([n] + ns)[0] == n && ([n] + ns)[1..] == ns
  {
  }

  lemma EventReads(e: Event)
    requires e.IsReading()
    ensures EventOf(EventNums(e)) == Some(e)
  {
    match e {
      case ClockRead(d) => DoubleReads(d); TailOf(0, DoubleNums(d));
      case RandomRead(d) => DoubleReads(d); TailOf(1, DoubleNums(d));
      case MonotonicRead(d) => DoubleReads(d); TailOf(2, DoubleNums(d));
      case BytesRead(b) => ByteListReads(b); TailOf(3, Each(ByteNum, b));
    }
  }

  // ----- lines -----

  type Checksum = Bytes -> nat

  /** A line without its newline: the checksum of the body, then the body. */
  function Line(sum: Checksum, i: nat, e: Event): Bytes {
    var body := Nums([i] + if e.IsReading() then EventNums(e) else []);
    Num(sum(body)) + body
  }

  /** The body's numbers, and whether the checksum fits. */
  function Body(sum: Checksum, line: Bytes): Option<(bool, seq<nat>)> {
    match ReadNum(line)
    case None => None
    case Some((carried, body)) =>
      match ReadNums(body)
      case None => None
      case Some(ns) => if ns == [] then None else Some((carried == sum(body), ns))
  }

  function Checked(sum: Checksum): Format {
    Format(
      (i: nat, e: Event) => Line(sum, i, e) + [NEWLINE],
      (line: Bytes) => match Body(sum, line) case None => Unreadable case Some((ok, ns)) => Entry(!ok, Some(ns[0]), false),
      (line: Bytes) => match Body(sum, line) case None => None case Some((_, ns)) => EventOf(ns[1..]))
  }

  /** Whatever the checksum, this framing keeps every reading. */
  lemma CheckedIsFaithful(sum: Checksum)
    ensures Checked(sum).Faithful()
  {
    forall i: nat, e: Event | e.IsReading() ensures Checked(sum).FramesOne(i, e) {
      LineReads(sum, i, e);
      LinePlain(sum, i, e);
      var line := Line(sum, i, e);
      assert (line + [NEWLINE])[..|line + [NEWLINE]| - 1] == line;
    }
  }

  lemma LineReads(sum: Checksum, i: nat, e: Event)
    requires e.IsReading()
    ensures Body(sum, Line(sum, i, e)) == Some((true, [i] + EventNums(e)))
    ensures EventOf(([i] + EventNums(e))[1..]) == Some(e)
  {
    var ns := [i] + EventNums(e);
    NumReads(sum(Nums(ns)), Nums(ns));
    NumsRead(ns);
    assert ns[1..] == EventNums(e);
    EventReads(e);
  }

  lemma LinePlain(sum: Checksum, i: nat, e: Event)
    ensures Plain(Line(sum, i, e))
  {
    var body := Nums([i] + if e.IsReading() then EventNums(e) else []);
    NumPlain(sum(body));
    NumsPlain([i] + if e.IsReading() then EventNums(e) else []);
  }
}
