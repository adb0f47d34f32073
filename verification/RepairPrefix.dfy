/** What the repair of a log keeps, told from its lines: the longest run of whole lines in which each can be read,
    no checksum is broken, the numbers are consecutive and nothing follows a completion. */
module RepairPrefix {
  import opened Wrappers
  import opened Events
  import opened GroupLog
  import opened LogRepair

  /** Lines end to end, each with its newline. */
  function Joined(lines: seq<Bytes>): Bytes {
    if lines == [] then [] else lines[0] + [NEWLINE] + Joined(lines[1..])
  }

  predicate Whole(line: Bytes) {
    forall k :: 0 <= k < |line| ==> line[k] != NEWLINE
  }

  predicate HasNumber(l: Line) {
    l.Entry? && l.seqNo.Some?
  }

  /** How many of the lines carry a number. */
  function Numbered(f: Format, lines: seq<Bytes>): nat {
    if lines == [] then 0 else (if HasNumber(f.read(lines[0])) then 1 else 0) + Numbered(f, lines[1..])
  }

  /** A line that may stand in a log where the next number is `number`. */
  predicate Fits(l: Line, number: int, last: bool) {
    && !l.Unreadable?
    && (l.Entry? ==> !l.crcBroken)
    && (HasNumber(l) ==> l.seqNo.value == number)
    && (l.Entry? && l.completed && !HasNumber(l) ==> last)
  }

  predicate FitsAt(f: Format, lines: seq<Bytes>, first: int, k: nat)
    requires k < |lines|
  {
    Whole(lines[k]) && Fits(f.read(lines[k]), first + Numbered(f, lines[..k]), k == |lines| - 1)
  }

  /** Lines of a sound log whose numbers begin at `first`. */
  ghost predicate SoundLines(f: Format, lines: seq<Bytes>, first: int) {
    forall k :: 0 <= k < |lines| ==> FitsAt(f, lines, first, k)
  }

  lemma NumberedTail(f: Format, lines: seq<Bytes>, k: nat)
    requires 0 < k <= |lines|
    ensures Numbered(f, lines[..k]) == (if HasNumber(f.read(lines[0])) then 1 else 0) + Numbered(f, lines[1..][..k - 1])
  {
    assert lines[..k][1..] == lines[1..][..k - 1];
  }

  /** The number expected after a line. */
  function After(f: Format, line: Bytes, first: int): int {
    first + if HasNumber(f.read(line)) then 1 else 0
  }

  lemma SoundTail(f: Format, lines: seq<Bytes>, first: int)
    requires lines != []
    ensures SoundLines(f, lines, first) <==>
      FitsAt(f, lines, first, 0) && SoundLines(f, lines[1..], After(f, lines[0], first))
  {
    var rest := lines[1..];
    forall k | 0 <= k < |rest| ensures FitsAt(f, rest, After(f, lines[0], first), k) <==> FitsAt(f, lines, first, k + 1) {
      NumberedTail(f, lines, k + 1);
    }
    if SoundLines(f, lines, first) {
      forall k | 0 <= k < |rest| ensures FitsAt(f, rest, After(f, lines[0], first), k) {
        assert FitsAt(f, lines, first, k + 1);
      }
    }
    if FitsAt(f, lines, first, 0) && SoundLines(f, rest, After(f, lines[0], first)) {
      forall k | 0 <= k < |lines| ensures FitsAt(f, lines, first, k) {
        if k > 0 {
          assert FitsAt(f, rest, After(f, lines[0], first), k - 1);
        }
      }
    }
  }

  /** A line stands at `pos` when the next newline ends it. */
  lemma LineStands(bytes: Bytes, pos: nat, line: Bytes, rest: Bytes)
    requires pos <= |bytes| && Whole(line) && line + [NEWLINE] + rest <= bytes[pos..]
    ensures pos + |line| < |bytes| && FindNewline(bytes, pos) == pos + |line| && bytes[pos..pos + |line|] == line
    ensures rest <= bytes[pos + |line| + 1..]
  {
    var l := line + [NEWLINE] + rest;
    forall k | 0 <= k < |l| ensures bytes[pos + k] == l[k] {
      assert bytes[pos..][k] == l[k];
    }
    forall k | pos <= k < pos + |line| ensures bytes[k] != NEWLINE {
      assert bytes[pos + (k - pos)] == l[k - pos];
    }
    assert l[|line|] == NEWLINE;
    FirstNewline(bytes, pos, pos + |line|);
    forall k | 0 <= k < |rest| ensures bytes[pos + |line| + 1..][k] == rest[k] {
      assert l[|line| + 1 + k] == rest[k];
    }
  }

  /** No sound run of lines is longer than what is kept. */
  lemma {:induction false} NoneLonger(f: Format, bytes: Bytes, pos: nat, first: int, lines: seq<Bytes>)
    requires pos <= |bytes| && SoundLines(f, lines, first) && Joined(lines) <= bytes[pos..]
    ensures pos + |Joined(lines)| <= ValidFrom(f, bytes, pos, first)
    decreases |lines|
  {
    if lines != [] {
      SoundTail(f, lines, first);
      LineStands(bytes, pos, lines[0], Joined(lines[1..]));
      assert lines[..0] == [];
      if Judge(f.read(lines[0]), first).Keep? {
        NoneLonger(f, bytes, pos + |lines[0]| + 1, After(f, lines[0], first), lines[1..]);
      }
    }
  }

  lemma FindsNewline(bytes: Bytes, pos: nat)
    requires pos <= |bytes|
    ensures var n := FindNewline(bytes, pos);
            Whole(bytes[pos..n]) && (n < |bytes| ==> bytes[n] == NEWLINE)
    decreases |bytes| - pos
  {
    var n := FindNewline(bytes, pos);
    if pos < n {
      FindsNewline(bytes, pos + 1);
      forall k | 0 <= k < n - pos ensures bytes[pos..n][k] != NEWLINE {
        assert k > 0 ==> bytes[pos..n][k] == bytes[pos + 1..n][k - 1];
      }
    }
  }

  lemma SoundMore(f: Format, line: Bytes, first: int, rest: seq<Bytes>)
    requires Whole(line) && Fits(f.read(line), first, rest == []) && SoundLines(f, rest, After(f, line, first))
    ensures SoundLines(f, [line] + rest, first) && Joined([line] + rest) == line + [NEWLINE] + Joined(rest)
  {
    var lines := [line] + rest;
    assert lines[1..] == rest && lines[..0] == [];
    SoundTail(f, lines, first);
  }

  lemma KeptParts(bytes: Bytes, pos: nat, nl: nat, n: nat)
    requires pos <= nl < n <= |bytes| && bytes[nl] == NEWLINE
    ensures bytes[pos..n] == bytes[pos..nl] + [NEWLINE] + bytes[nl + 1..n]
  {
  }

  /** What is kept is a sound run of lines. */
  lemma {:induction false} KeptIsSound(f: Format, bytes: Bytes, pos: nat, first: int) returns (lines: seq<Bytes>)
    requires pos <= |bytes|
    ensures SoundLines(f, lines, first) && Joined(lines) == bytes[pos..ValidFrom(f, bytes, pos, first)]
    decreases |bytes| - pos
  {
    var nl, n := FindNewline(bytes, pos), ValidFrom(f, bytes, pos, first);
    lines := [];
    if nl < |bytes| && n > pos {
      FindsNewline(bytes, pos);
      var line, rest := bytes[pos..nl], [];
      if Judge(f.read(line), first).Keep? {
        rest := KeptIsSound(f, bytes, nl + 1, After(f, line, first));
      }
      SoundMore(f, line, first, rest);
      KeptParts(bytes, pos, nl, n);
      lines := [line] + rest;
    }
  }

  /** Whatever the bytes, the repair keeps the longest prefix made of sound lines. */
  lemma KeptIsLongest(f: Format, bytes: Bytes)
    ensures var n := ValidFrom(f, bytes, 0, 0);
            && (exists lines :: SoundLines(f, lines, 0) && bytes[..n] == Joined(lines))
            && forall lines :: SoundLines(f, lines, 0) && Joined(lines) <= bytes ==> |Joined(lines)| <= n
  {
    var kept := KeptIsSound(f, bytes, 0, 0);
    assert bytes[0..] == bytes;
    forall lines | SoundLines(f, lines, 0) && Joined(lines) <= bytes ensures |Joined(lines)| <= ValidFrom(f, bytes, 0, 0) {
      NoneLonger(f, bytes, 0, 0, lines);
    }
  }

  // ----- a damaged line -----

  /** A line that cannot be record `j` of a log. */
  predicate Damaged(l: Line, j: nat) {
    l.Unreadable? || (l.Entry? && (l.crcBroken || (l.seqNo.Some? && l.seqNo.value != j)))
  }

  lemma LineOf(f: Format, events: seq<Event>, i: nat, j: nat, tail: Bytes)
    requires f.Frames(events) && i < j <= |events|
    ensures var framed := f.serialize(i, events[i]);
            && |framed| > 0 && f.FramesOne(i, events[i])
            && HasLine(Lines(f, events, 0, j) + tail, LineStart(f, events, i), LineStart(f, events, i + 1), framed[..|framed| - 1])
  {
    assert f.FramesOne(i, events[i]);
    var framed := f.serialize(i, events[i]);
    LinesSplit(f, events, 0, i + 1, j);
    LineIn(Lines(f, events, 0, i), framed, Lines(f, events, i + 1, j) + tail);
    assert Lines(f, events, 0, i) + framed + (Lines(f, events, i + 1, j) + tail) == Lines(f, events, 0, j) + tail;
  }

  lemma {:induction false} ScanThrough(f: Format, events: seq<Event>, j: nat, bytes: Bytes, i: nat)
    requires f.Frames(events) && i <= j <= |events| && Lines(f, events, 0, j) <= bytes
    ensures LineStart(f, events, i) <= LineStart(f, events, j)
    ensures ValidFrom(f, bytes, LineStart(f, events, i), i) == ValidFrom(f, bytes, LineStart(f, events, j), j)
    decreases j - i
  {
    if i < j {
      ScanThrough(f, events, j, bytes, i + 1);
      var framed := f.serialize(i, events[i]);
      assert bytes == Lines(f, events, 0, j) + bytes[|Lines(f, events, 0, j)|..];
      LineOf(f, events, i, j, bytes[|Lines(f, events, 0, j)|..]);
      ScanKeeps(f, bytes, LineStart(f, events, i), LineStart(f, events, i + 1), framed[..|framed| - 1], i);
    }
  }

  lemma ScanStops(f: Format, bytes: Bytes, pos: nat, bad: Bytes, rest: Bytes, j: nat)
    requires pos <= |bytes| && bytes[pos..] == bad + [NEWLINE] + rest && Whole(bad) && Damaged(f.read(bad), j)
    ensures ValidFrom(f, bytes, pos, j) == pos
  {
    LineStands(bytes, pos, bad, rest);
  }

  /** A framed log in which line `j` has become one that cannot be read, whose checksum is broken or whose number is
      another, whatever follows it: exactly the first `j` records survive. */
  lemma DamageEndsLog(f: Format, events: seq<Event>, j: nat, bad: Bytes, rest: Bytes)
    requires f.Frames(events) && j <= |events| && Whole(bad) && Damaged(f.read(bad), j)
    ensures var bytes := Lines(f, events, 0, j) + (bad + [NEWLINE] + rest);
            var n := ValidFrom(f, bytes, 0, 0);
            bytes[..n] == Lines(f, events, 0, j) && Decode(f, bytes[..n], 0) == events[..j]
  {
    var start, tail := Lines(f, events, 0, j), bad + [NEWLINE] + rest;
    ScanThrough(f, events, j, start + tail, 0);
    ScanStops(f, start + tail, |start|, bad, rest, j);
    DecodeLines(f, events, j);
    assert (start + tail)[..|start|] == start;
  }
}
