/** A native bundle: a runtime stub, a program payload and a footer that says where the payload is. */
module Bundle {
  import opened Wrappers

  type Byte = x: int | 0 <= x < 256

  type Bytes = seq<Byte>

  const MAGIC: Bytes := [65, 83, 67, 82, 73, 80, 84, 66]
  const FOOTER_SIZE := 32
  const MIN_STUB_SIZE := 4096
  const VERSION_MAX := 2
  const FLAG_ZSTD := 1
  const MAX_UNCOMPRESSED := 512 * 1024 * 1024

  // ----- little-endian integers -----

  function Pow256(w: nat): (p: nat)
    ensures p > 0
  {
    if w == 0 then 1 else 256 * Pow256(w - 1)
  }

  function Le(n: nat, w: nat): (s: Bytes)
    ensures |s| == w
  {
    if w == 0 then [] else [n % 256] + Le(n / 256, w - 1)
  }

  function FromLe(s: Bytes): nat {
    if s == [] then 0 else s[0] + 256 * FromLe(s[1..])
  }

  lemma {:induction false} LeRoundTrip(n: nat, w: nat)
    requires n < Pow256(w)
    ensures FromLe(Le(n, w)) == n
  {
    if w > 0 {
      LeRoundTrip(n / 256, w - 1);
      assert Le(n, w)[1..] == Le(n / 256, w - 1);
    }
  }

  lemma {:induction false} FromLeRoundTrip(s: Bytes)
    ensures FromLe(s) < Pow256(|s|) && Le(FromLe(s), |s|) == s
    decreases |s|
  {
    if s != [] {
      FromLeRoundTrip(s[1..]);
      assert FromLe(s) / 256 == FromLe(s[1..]) && FromLe(s) % 256 == s[0];
    }
  }

  /** Byte `k` is the digit of weight 256 to the `k`. */
  lemma {:induction false} LeAt(n: nat, w: nat, k: nat)
    requires k < w
    ensures Le(n, w)[k] == n / Pow256(k) % 256
  {
    if k == 0 {
      assert Pow256(0) == 1;
    } else {
      LeAt(n / 256, w - 1, k - 1);
      DivTwice(n, Pow256(k - 1));
    }
  }

  lemma DivTwice(n: nat, p: nat)
    requires p > 0
    ensures n / 256 / p == n / (256 * p)
  {
    var q := n / (256 * p);
    var r := n - q * (256 * p);
    assert 0 <= r < 256 * p;
    assert r / 256 < p;
    assert n == 256 * (q * p) + r;
    assert n / 256 == q * p + r / 256;
    DivBy(n / 256, q, p, r / 256);
  }

  lemma DivBy(a: nat, q: nat, p: nat, r: nat)
    requires p > 0 && a == q * p + r && r < p
    ensures a / p == q
  {
    MulKeepsOrder(a / p, q, p);
    MulKeepsOrder(q, a / p, p);
  }

  lemma MulKeepsOrder(a: nat, b: nat, p: nat)
    ensures a < b ==> a * p + p <= b * p
  {
    if a < b {
      var more: nat := b - a - 1;
      Product(more, p);
      assert b * p == (a + 1 + more) * p == a * p + p + more * p;
    }
  }

  lemma Product(a: nat, b: nat)
    ensures a * b >= 0
  {
  }

  // ----- the footer -----

  datatype Footer = Footer(offset: nat, len: nat, aso: nat, version: nat, flags: nat)
  {
    predicate InRange() {
      offset < Pow256(8) && len < Pow256(8) && aso < Pow256(4) && version < Pow256(2) && flags < Pow256(2)
    }
  }

  function Encode(f: Footer): (b: Bytes)
    ensures |b| == FOOTER_SIZE
  {
    Le(f.offset, 8) + Le(f.len, 8) + Le(f.aso, 4) + Le(f.version, 2) + Le(f.flags, 2) + MAGIC
  }

  /** A fixed buffer, filled field by field. */
  method ToBytes(f: Footer) returns (b: array<Byte>)
    ensures fresh(b) && b[..] == Encode(f)
  {
    b := new Byte[FOOTER_SIZE](_ => 0);
    CopyInto(b, 0, Le(f.offset, 8));
    CopyInto(b, 8, Le(f.len, 8));
    CopyInto(b, 16, Le(f.aso, 4));
    CopyInto(b, 20, Le(f.version, 2));
    CopyInto(b, 22, Le(f.flags, 2));
    CopyInto(b, 24, MAGIC);
    assert b[..] == b[..32];
  }

  method CopyInto(b: array<Byte>, at: nat, s: Bytes)
    requires at + |s| <= b.Length
    modifies b
    ensures b[..at + |s|] == old(b[..at]) + s
  {
    for k := 0 to |s|
      invariant b[..at + k] == old(b[..at]) + s[..k]
    {
      b[at + k] := s[k];
      assert b[..at + k + 1] == b[..at + k] + [s[k]];
      assert s[..k + 1] == s[..k] + [s[k]];
    }
    assert s[..|s|] == s;
  }

  function Decode(b: Bytes): Option<Footer> {
    if |b| != FOOTER_SIZE || b[24..32] != MAGIC then None
    else Some(Footer(FromLe(b[0..8]), FromLe(b[8..16]), FromLe(b[16..20]), FromLe(b[20..22]), FromLe(b[22..24])))
  }

  /** The footer's layout. */
  lemma EncodeParts(f: Footer)
    ensures var b := Encode(f);
      && b[0..8] == Le(f.offset, 8) && b[8..16] == Le(f.len, 8) && b[16..20] == Le(f.aso, 4)
      && b[20..22] == Le(f.version, 2) && b[22..24] == Le(f.flags, 2) && b[24..32] == MAGIC
  {
  }

  lemma FieldAt(b: Bytes, from: nat, n: nat, w: nat)
    requires from + w <= |b| && b[from..from + w] == Le(n, w)
    ensures forall k :: 0 <= k < w ==> b[from + k] == n / Pow256(k) % 256
  {
    forall k | 0 <= k < w ensures b[from + k] == n / Pow256(k) % 256 {
      LeAt(n, w, k);
      assert b[from + k] == b[from..from + w][k];
    }
  }

  /** Where every byte of a footer comes from: the five fields, each from its lowest byte up, and the mark. */
  lemma FooterLayout(f: Footer, k: nat)
    requires k < FOOTER_SIZE
    ensures Encode(f)[k] ==
      if k < 8 then f.offset / Pow256(k) % 256
      else if k < 16 then f.len / Pow256(k - 8) % 256
      else if k < 20 then f.aso / Pow256(k - 16) % 256
      else if k < 22 then f.version / Pow256(k - 20) % 256
      else if k < 24 then f.flags / Pow256(k - 22) % 256
      else "ASCRIPTB"[k - 24] as int
  {
    EncodeParts(f);
    var b := Encode(f);
    FieldAt(b, 0, f.offset, 8);
    FieldAt(b, 8, f.len, 8);
    FieldAt(b, 16, f.aso, 4);
    FieldAt(b, 20, f.version, 2);
    FieldAt(b, 22, f.flags, 2);
    assert k >= 24 ==> b[k] == b[24..32][k - 24];
    if k < 8 { assert b[0 + k] == f.offset / Pow256(k) % 256; }
    else if k < 16 { assert b[8 + (k - 8)] == f.len / Pow256(k - 8) % 256; }
    else if k < 20 { assert b[16 + (k - 16)] == f.aso / Pow256(k - 16) % 256; }
    else if k < 22 { assert b[20 + (k - 20)] == f.version / Pow256(k - 20) % 256; }
    else if k < 24 { assert b[22 + (k - 22)] == f.flags / Pow256(k - 22) % 256; }
    else { MarkSpells(k - 24); }
  }

  lemma MarkSpells(k: nat)
    requires k < 8
    ensures MAGIC[k] == "ASCRIPTB"[k] as int
  {
  }

  /** The footer's 32 bytes and its fields determine each other. */
  lemma FooterRoundTrip(f: Footer)
    requires f.InRange()
    ensures Decode(Encode(f)) == Some(f)
  {
    EncodeParts(f);
    LeRoundTrip(f.offset, 8);
    LeRoundTrip(f.len, 8);
    LeRoundTrip(f.aso, 4);
    LeRoundTrip(f.version, 2);
    LeRoundTrip(f.flags, 2);
  }

  lemma FooterBytesRoundTrip(b: Bytes)
    requires Decode(b).Some?
    ensures Decode(b).value.InRange() && Encode(Decode(b).value) == b
  {
    FromLeRoundTrip(b[0..8]);
    FromLeRoundTrip(b[8..16]);
    FromLeRoundTrip(b[16..20]);
    FromLeRoundTrip(b[20..22]);
    FromLeRoundTrip(b[22..24]);
    assert b == b[0..8] + b[8..16] + b[16..20] + b[20..22] + b[22..24] + b[24..32];
  }

  /** A plain footer is a version-1 footer; flags make it version 2. */
  function WriteFooter(stubLen: nat, payloadLen: nat, aso: nat, flags: nat): Bytes {
    Encode(Footer(stubLen, payloadLen, aso, if flags == 0 then 1 else 2, flags))
  }

  // ----- reading an image -----

  datatype Refusal = TooNew | FlagsOnOldFooter | UnknownFlags | NoZstd

  datatype Check = NotABundle | IsBundle(offset: nat, len: nat, flags: nat) | Refused(why: Refusal)

  /** `zstd` says whether the runtime has the codec. The sum of the two fields is formed in 64 bits,
      where an overflow means the footer is not one. */
  function Validate(zstd: bool, tail: Bytes, imageLen: nat): Check {
    if imageLen < FOOTER_SIZE then NotABundle
    else match Decode(tail)
      case None => NotABundle
      case Some(f) =>
        if f.offset < MIN_STUB_SIZE || f.offset + f.len >= Pow256(8) || f.offset + f.len > imageLen - FOOTER_SIZE then NotABundle
        else if f.version > VERSION_MAX then Refused(TooNew)
        else if f.version <= 1 && f.flags != 0 then Refused(FlagsOnOldFooter)
        else if f.version == 2 && f.flags / 2 != 0 then Refused(UnknownFlags)
        else if f.version == 2 && f.flags % 2 == FLAG_ZSTD && !zstd then Refused(NoZstd)
        else IsBundle(f.offset, f.len, f.flags)
  }

  /** The start-up read: the tail against the file's length, then the payload's bytes. */
  function ReadImage(zstd: bool, image: Bytes): (Check, Bytes) {
    if |image| < FOOTER_SIZE then (NotABundle, [])
    else
      var c := Validate(zstd, image[|image| - FOOTER_SIZE..], |image|);
      (c, if c.IsBundle? && c.offset + c.len <= |image| then image[c.offset..c.offset + c.len] else [])
  }

  /** Whatever the bytes are, a verdict of bundle means a payload after a stub of the least size and
      before the footer, so the read of the payload stays inside the image. */
  lemma VerdictIsSafe(zstd: bool, image: Bytes)
    ensures var (c, payload) := ReadImage(zstd, image);
      c.IsBundle? ==>
        && 4096 <= c.offset && c.offset + c.len + FOOTER_SIZE <= |image| && c.offset + c.len < Pow256(8)
        && payload == image[c.offset..c.offset + c.len]
        && (c.flags == 0 || (c.flags == FLAG_ZSTD && zstd))
        && image[|image| - 8..] == MAGIC
  {
    if |image| >= FOOTER_SIZE {
      var tail := image[|image| - FOOTER_SIZE..];
      assert tail[24..32] == image[|image| - 8..];
    }
  }

  /** The footer stands behind a stub of the least size and the payload it describes. */
  predicate Placed(f: Footer, imageLen: nat) {
    4096 <= f.offset && f.offset + f.len + FOOTER_SIZE <= imageLen && f.offset + f.len < Pow256(8)
  }

  /** What a runtime can start: plain footers of the first version, and of the second with no flags or with
      compression it has. */
  predicate Starts(f: Footer, zstd: bool) {
    (f.version <= 1 && f.flags == 0) || (f.version == 2 && (f.flags == 0 || (f.flags == 1 && zstd)))
  }

  lemma FooterVerdict(zstd: bool, tail: Bytes, imageLen: nat)
    requires imageLen >= FOOTER_SIZE && Decode(tail).Some?
    ensures var v, f := Validate(zstd, tail, imageLen), Decode(tail).value;
            if !Placed(f, imageLen) then v == NotABundle
            else if f.version > 2 then v == Refused(TooNew)
            else if Starts(f, zstd) then v == IsBundle(f.offset, f.len, f.flags)
            else v == Refused(if f.version <= 1 then FlagsOnOldFooter else if f.flags > 1 then UnknownFlags else NoZstd)
  {
  }

  /** Every verdict, in exactly its cases: no bundle without the mark and a payload in its place; otherwise a bundle
      that can be started, or a refusal that names what is wrong with it. A later version is refused as such,
      whatever its flags. */
  lemma VerdictExactly(zstd: bool, image: Bytes)
    ensures var v := ReadImage(zstd, image).0;
            var tail := if |image| < FOOTER_SIZE then [] else image[|image| - FOOTER_SIZE..];
            match Decode(tail)
            case None => v == NotABundle
            case Some(f) =>
              && (v == NotABundle <==> !Placed(f, |image|))
              && (v == IsBundle(f.offset, f.len, f.flags) <==> Placed(f, |image|) && Starts(f, zstd))
              && (v.IsBundle? ==> v == IsBundle(f.offset, f.len, f.flags))
              && (v == Refused(TooNew) <==> Placed(f, |image|) && f.version > 2)
              && (v == Refused(FlagsOnOldFooter) <==> Placed(f, |image|) && f.version <= 1 && f.flags != 0)
              && (v == Refused(UnknownFlags) <==> Placed(f, |image|) && f.version == 2 && f.flags > 1)
              && (v == Refused(NoZstd) <==> Placed(f, |image|) && f.version == 2 && f.flags == 1 && !zstd)
  {
    if |image| >= FOOTER_SIZE && Decode(image[|image| - FOOTER_SIZE..]).Some? {
      FooterVerdict(zstd, image[|image| - FOOTER_SIZE..], |image|);
    }
  }

  function Image(stub: Bytes, payload: Bytes, aso: nat, flags: nat): Bytes {
    stub + payload + WriteFooter(|stub|, |payload|, aso, flags)
  }

  lemma ImageParts(stub: Bytes, payload: Bytes, footer: Bytes)
    requires |footer| == FOOTER_SIZE
    ensures var image := stub + payload + footer;
      image[|image| - FOOTER_SIZE..] == footer && image[|stub|..|stub| + |payload|] == payload
  {
  }

  /** What reading a built image gives, in every case: the payload and flags exactly, when the stub
      has the least size and the runtime knows the flags; a refusal of flags it does not know; and
      no bundle at all when the stub is too small. */
  lemma ImageRoundTrip(zstd: bool, stub: Bytes, payload: Bytes, aso: nat, flags: nat)
    requires |stub| + |payload| + FOOTER_SIZE < Pow256(8) && aso < Pow256(4) && flags < Pow256(2)
    ensures ReadImage(zstd, Image(stub, payload, aso, flags)) ==
      if |stub| < 4096 then (NotABundle, [])
      else if flags == 0 || (flags == FLAG_ZSTD && zstd) then (IsBundle(|stub|, |payload|, flags), payload)
      else (Refused(if flags == FLAG_ZSTD then NoZstd else UnknownFlags), [])
  {
    var f := Footer(|stub|, |payload|, aso, if flags == 0 then 1 else 2, flags);
    assert Pow256(2) == 256 * 256 by {
      assert Pow256(1) == 256;
    }
    FooterRoundTrip(f);
    ImageParts(stub, payload, Encode(f));
  }

  // ----- compressed payloads -----

  /** A compressor, and a decompressor that reads at most so many bytes of what a frame holds. */
  datatype Zstd = Zstd(deflate: Bytes -> Result<Bytes, string>, inflate: (Bytes, nat) -> Result<Bytes, string>)
  {
    /** Reading a frame stops at the limit; a frame the compressor made holds what it was made of. */
    ghost predicate Sound() {
      && (forall frame, limit :: Capped(frame, limit))
      && (forall b, limit :: Inverse(b, limit))
    }

    ghost predicate Capped(frame: Bytes, limit: nat) {
      inflate(frame, limit).Ok? ==> |inflate(frame, limit).value| <= limit
    }

    ghost predicate Inverse(b: Bytes, limit: nat) {
      deflate(b).Ok? ==> inflate(deflate(b).value, limit) == Ok(if |b| <= limit then b else b[..limit])
    }
  }

  function Compress(z: Zstd, b: Bytes): Result<Bytes, string> {
    match z.deflate(b)
    case Err(m) => Err(m)
    case Ok(frame) => Ok(Le(|b|, 8) + frame)
  }

  function Decompress(z: Zstd, data: Bytes): Result<Bytes, string> {
    if |data| < 8 then Err("truncated")
    else
      var declared := FromLe(data[..8]);
      if declared > MAX_UNCOMPRESSED then Err("implausible size")
      else match z.inflate(data[8..], declared + 1)
        case Err(m) => Err(m)
        case Ok(out) => if |out| != declared then Err("length mismatch") else Ok(out)
  }

  /** A compressed payload comes back exactly when it is no larger than the cap; the builder does not
      look at the cap, so a larger one builds and cannot be run. */
  lemma CompressRoundTrip(z: Zstd, b: Bytes)
    requires z.Sound() && |b| < Pow256(8) && Compress(z, b).Ok?
    ensures Decompress(z, Compress(z, b).value) == Ok(b) <==> |b| <= 0x2000_0000
    ensures |b| > 0x2000_0000 ==> Decompress(z, Compress(z, b).value).Err?
  {
    var data := Compress(z, b).value;
    assert data[..8] == Le(|b|, 8) && data[8..] == z.deflate(b).value;
    LeRoundTrip(|b|, 8);
    assert z.Inverse(b, |b| + 1);
  }

  /** Whatever the bytes are, what comes out has the declared length, which is within the cap. */
  lemma DecompressIsBounded(z: Zstd, data: Bytes)
    ensures Decompress(z, data).Ok? ==>
      |data| >= 8 && |Decompress(z, data).value| == FromLe(data[..8]) <= MAX_UNCOMPRESSED
  {
  }

  /** Build and start: the program that runs is the program that was built. */
  lemma BuildAndStart(z: Zstd, stub: Bytes, program: Bytes, aso: nat)
    requires z.Sound() && aso < Pow256(4) && MIN_STUB_SIZE <= |stub|
    requires Compress(z, program).Ok? && |stub| + |program| + |Compress(z, program).value| + FOOTER_SIZE < Pow256(8)
    ensures ReadImage(true, Image(stub, program, aso, 0)).1 == program
    ensures |program| <= MAX_UNCOMPRESSED ==>
      Decompress(z, ReadImage(true, Image(stub, Compress(z, program).value, aso, FLAG_ZSTD)).1) == Ok(program)
  {
    assert Pow256(2) == 256 * 256 by {
      assert Pow256(1) == 256;
    }
    ImageRoundTrip(true, stub, program, aso, 0);
    ImageRoundTrip(true, stub, Compress(z, program).value, aso, FLAG_ZSTD);
    CompressRoundTrip(z, program);
  }
}
