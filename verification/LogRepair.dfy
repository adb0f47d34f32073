/** Opening a group log after a crash: find its longest valid prefix, cut the rest, and read
    the events that survived. */
module LogRepair {
  import opened Wrappers
  import opened Events
  import opened GroupLog

  /** The first newline at or after `pos`, or the length when there is none. */
  function FindNewline(bytes: Bytes, pos: nat): (n: nat)
    requires pos <= |bytes|
    ensures pos <= n <= |bytes|
    decreases |bytes| - pos
  {
    if pos == |bytes| || bytes[pos] == NEWLINE then pos else FindNewline(bytes, pos + 1)
  }

  lemma {:induction false} FirstNewline(bytes: Bytes, pos: nat, n: nat)
    requires pos <= n < |bytes| && bytes[n] == NEWLINE && forall k :: pos <= k < n ==> bytes[k] != NEWLINE
    ensures FindNewline(bytes, pos) == n
    decreases n - pos
  {
    if pos < n {
      FirstNewline(bytes, pos + 1, n);
    }
  }

  datatype Verdict = Keep(nextSeq: int) | KeepAndStop | Reject

  /** What one complete line does to the scan, given the sequence number expected next. */
  function Judge(line: Line, expected: int): Verdict {
    match line
    case Blank => Keep(expected)
    case Unreadable => Reject
    case Entry(crcBroken, seqNo, completed) =>
      if crcBroken then Reject
      else if seqNo.Some? then (if seqNo.value == expected then Keep(expected + 1) else Reject)
      else if completed then KeepAndStop
      else Keep(expected)
  }

  /** Length of the valid prefix, the scan standing at the line start `pos`. */
  function ValidFrom(f: Format, bytes: Bytes, pos: nat, expected: int): (n: nat)
    requires pos <= |bytes|
    ensures pos <= n <= |bytes|
    decreases |bytes| - pos
  {
    var nl := FindNewline(bytes, pos);
    if nl == |bytes| then pos
    else
      match Judge(f.read(bytes[pos..nl]), expected)
      case Reject => pos
      case KeepAndStop => nl + 1
      case Keep(next) => ValidFrom(f, bytes, nl + 1, next)
  }

  /** The scan as the log opener runs it. */
  method ValidPrefixLen(f: Format, bytes: Bytes) returns (prefixEnd: nat)
    ensures prefixEnd == ValidFrom(f, bytes, 0, 0)
  {
    prefixEnd := 0;
    var pos, expectSeq := 0, 0;
    while pos < |bytes|
      invariant 0 <= pos == prefixEnd <= |bytes|
      invariant ValidFrom(f, bytes, 0, 0) == ValidFrom(f, bytes, pos, expectSeq)
    {
      var lineEnd := FindNewline(bytes, pos);
      if lineEnd == |bytes| {
        break;
      }
      match f.read(bytes[pos..lineEnd]) {
        case Blank =>
          pos := lineEnd + 1;
          prefixEnd := pos;
          continue;
        case Unreadable =>
          break;
        case Entry(crcBroken, seqNo, completed) =>
          if crcBroken {
            break;
          }
          if seqNo.Some? {
            if seqNo.value != expectSeq {
              break;
            }
            expectSeq := expectSeq + 1;
          } else if completed {
            prefixEnd := lineEnd + 1;
            return;
          }
      }
      pos := lineEnd + 1;
      prefixEnd := pos;
    }
  }

  /** The events of a log text: one a line, a line that holds none skipped. */
  function Decode(f: Format, bytes: Bytes, pos: nat): seq<Event>
    requires pos <= |bytes|
    decreases |bytes| - pos
  {
    if pos == |bytes| then []
    else LineEvents(f, bytes, pos) + Decode(f, bytes, NextLine(bytes, pos))
  }

  function NextLine(bytes: Bytes, pos: nat): (n: nat)
    requires pos < |bytes|
    ensures pos < n <= |bytes|
  {
    var nl := FindNewline(bytes, pos);
    if nl == |bytes| then nl else nl + 1
  }

  function LineEvents(f: Format, bytes: Bytes, pos: nat): seq<Event>
    requires pos < |bytes|
  {
    match f.event(bytes[pos..FindNewline(bytes, pos)])
    case Some(e) => [e]
    case None => []
  }

  // ----- repair is stable -----

  lemma FindNewlineCut(bytes: Bytes, pos: nat, n: nat)
    requires pos <= n <= |bytes|
    ensures FindNewline(bytes[..n], pos) == if FindNewline(bytes, pos) < n then FindNewline(bytes, pos) else n
    decreases n - pos
  {
    if pos < n && bytes[pos] != NEWLINE {
      FindNewlineCut(bytes, pos + 1, n);
    }
  }

  /** A repaired log needs no repair: cutting at the valid prefix leaves a log that is valid to
      its end. */
  lemma {:induction false} RepairIsStable(f: Format, bytes: Bytes, pos: nat, expected: int)
    requires pos <= |bytes|
    ensures var n := ValidFrom(f, bytes, pos, expected);
            ValidFrom(f, bytes[..n], pos, expected) == n
    decreases |bytes| - pos
  {
    var n := ValidFrom(f, bytes, pos, expected);
    if pos < n {
      var nl := FindNewline(bytes, pos);
      if Judge(f.read(bytes[pos..nl]), expected).Keep? {
        RepairIsStable(f, bytes, nl + 1, Judge(f.read(bytes[pos..nl]), expected).nextSeq);
      }
      CutReadsSame(f, bytes, pos, n);
    }
  }

  /** A cut past a line leaves it as it was. */
  lemma CutReadsSame(f: Format, bytes: Bytes, pos: nat, n: nat)
    requires pos <= |bytes| && FindNewline(bytes, pos) < n <= |bytes|
    ensures FindNewline(bytes[..n], pos) == FindNewline(bytes, pos)
    ensures bytes[..n][pos..FindNewline(bytes, pos)] == bytes[pos..FindNewline(bytes, pos)]
  {
    FindNewlineCut(bytes, pos, n);
  }

  // ----- a torn log of well-framed records -----

  function LineStart(f: Format, events: seq<Event>, k: nat): nat
    requires k <= |events|
  {
    |Lines(f, events, 0, k)|
  }

  /** How many whole lines lie within the first `cut` bytes. */
  function WholeLines(f: Format, events: seq<Event>, k: nat, cut: nat): (j: nat)
    requires k <= |events|
    ensures j <= k
    ensures LineStart(f, events, j) <= cut
    ensures j < k ==> cut < LineStart(f, events, j + 1)
  {
    if k == 0 || LineStart(f, events, k) <= cut then
      if k == 0 then 0 else k
    else WholeLines(f, events, k - 1, cut)
  }

  /** The line standing at `s` is `line`, its only newline at `t - 1`. */
  ghost predicate HasLine(bytes: Bytes, s: nat, t: nat, line: Bytes) {
    && s < t <= |bytes| && bytes[s..t - 1] == line
    && FindNewline(bytes, s) == t - 1
  }

  lemma LineIn(a: Bytes, framed: Bytes, c: Bytes)
    requires |framed| > 0 && framed[|framed| - 1] == NEWLINE
    requires forall i :: 0 <= i < |framed| - 1 ==> framed[i] != NEWLINE
    ensures HasLine(a + framed + c, |a|, |a| + |framed|, framed[..|framed| - 1])
  {
    var b := a + framed + c;
    assert b[|a| + |framed| - 1] == NEWLINE;
    forall i | |a| <= i < |a| + |framed| - 1 ensures b[i] != NEWLINE {
      assert b[i] == framed[i - |a|];
    }
    FirstNewline(b, |a|, |a| + |framed| - 1);
    assert b[|a|..|a| + |framed| - 1] == framed[..|framed| - 1];
  }

  lemma LineAt(f: Format, events: seq<Event>, j: nat, k: nat)
    requires f.Frames(events) && j < k <= |events|
    ensures var framed := f.serialize(j, events[j]);
            && |framed| > 0 && f.FramesOne(j, events[j])
            && LineStart(f, events, j + 1) == LineStart(f, events, j) + |framed|
            && HasLine(Lines(f, events, 0, k), LineStart(f, events, j), LineStart(f, events, j + 1), framed[..|framed| - 1])
  {
    assert f.FramesOne(j, events[j]);
    LinesSplit(f, events, 0, j + 1, k);
    LineIn(Lines(f, events, 0, j), f.serialize(j, events[j]), Lines(f, events, j + 1, k));
  }

  /** A cut past a line does not disturb it. */
  lemma CutKeepsLine(bytes: Bytes, s: nat, t: nat, line: Bytes, cut: nat)
    requires HasLine(bytes, s, t, line) && t <= cut <= |bytes|
    ensures HasLine(bytes[..cut], s, t, line)
  {
    FindNewlineCut(bytes, s, cut);
    assert bytes[..cut][s..t - 1] == bytes[s..t - 1];
  }

  lemma {:induction false} StartsGrow(f: Format, events: seq<Event>, i: nat, j: nat)
    requires i <= j <= |events|
    ensures LineStart(f, events, i) <= LineStart(f, events, j)
  {
    LinesSplit(f, events, 0, i, j);
  }

  lemma ScanKeeps(f: Format, bytes: Bytes, s: nat, t: nat, line: Bytes, j: nat)
    requires HasLine(bytes, s, t, line) && Judge(f.read(line), j) == Keep(j + 1)
    ensures ValidFrom(f, bytes, s, j) == ValidFrom(f, bytes, t, j + 1)
  {
  }

  /** Wherever a crash cuts a log of framed records, the scan keeps exactly the records whose
      lines are whole. */
  lemma {:induction false} TornLogScan(f: Format, events: seq<Event>, k: nat, cut: nat, j: nat)
    requires f.Frames(events) && k <= |events| && cut <= LineStart(f, events, k)
    requires j <= WholeLines(f, events, k, cut)
    ensures LineStart(f, events, j) <= cut
    ensures ValidFrom(f, Lines(f, events, 0, k)[..cut], LineStart(f, events, j), j)
         == LineStart(f, events, WholeLines(f, events, k, cut))
    decreases k - j
  {
    var m, whole := WholeLines(f, events, k, cut), Lines(f, events, 0, k);
    StartsGrow(f, events, j, m);
    if j < m {
      LineAt(f, events, j, k);
      StartsGrow(f, events, j + 1, m);
      var framed := f.serialize(j, events[j]);
      CutKeepsLine(whole, LineStart(f, events, j), LineStart(f, events, j + 1), framed[..|framed| - 1], cut);
      ScanKeeps(f, whole[..cut], LineStart(f, events, j), LineStart(f, events, j + 1), framed[..|framed| - 1], j);
      TornLogScan(f, events, k, cut, j + 1);
    } else if j < k {
      LineAt(f, events, j, k);
      FindNewlineCut(whole, LineStart(f, events, j), cut);
    }
  }

  /** The line that stands from `s` to `t` holds the event `e`. */
  ghost predicate HoldsEvent(f: Format, bytes: Bytes, s: nat, t: nat, e: Event) {
    s < t <= |bytes| && FindNewline(bytes, s) == t - 1 && f.event(bytes[s..t - 1]) == Some(e)
  }

  lemma DecodeOne(f: Format, bytes: Bytes, s: nat, t: nat, e: Event)
    requires HoldsEvent(f, bytes, s, t, e)
    ensures Decode(f, bytes, s) == [e] + Decode(f, bytes, t)
  {
    assert LineEvents(f, bytes, s) == [e] && NextLine(bytes, s) == t;
  }

  ghost predicate HoldsAt(f: Format, bytes: Bytes, starts: seq<nat>, events: seq<Event>, k: nat)
    requires |starts| == |events| + 1 && k < |events|
  {
    HoldsEvent(f, bytes, starts[k], starts[k + 1], events[k])
  }

  lemma {:induction false} DecodeChain(f: Format, bytes: Bytes, starts: seq<nat>, events: seq<Event>, j: nat)
    requires |starts| == |events| + 1 && starts[|events|] == |bytes| && j <= |events|
    requires forall k :: 0 <= k < |events| ==> HoldsAt(f, bytes, starts, events, k)
    ensures starts[j] <= |bytes| && Decode(f, bytes, starts[j]) == events[j..]
    decreases |events| - j
  {
    if j < |events| {
      DecodeChain(f, bytes, starts, events, j + 1);
      assert HoldsAt(f, bytes, starts, events, j);
      DecodeOne(f, bytes, starts[j], starts[j + 1], events[j]);
      assert events[j..] == [events[j]] + events[j + 1..];
    }
  }

  /** Reading whole framed records gives their events back. */
  lemma DecodeLines(f: Format, events: seq<Event>, m: nat)
    requires f.Frames(events) && m <= |events|
    ensures Decode(f, Lines(f, events, 0, m), 0) == events[..m]
  {
    var bytes := Lines(f, events, 0, m);
    var starts := seq(m + 1, k requires 0 <= k < m + 1 => LineStart(f, events, k));
    forall k | 0 <= k < m ensures HoldsAt(f, bytes, starts, events[..m], k) {
      LineAt(f, events, k, m);
    }
    DecodeChain(f, bytes, starts, events[..m], 0);
  }

  /** What a resume finds after a crash cut a log of `k` framed records at any byte: the repair
      leaves whole lines only, and they decode to the first events of the log, none skipped. */
  lemma TornLogRepairs(f: Format, events: seq<Event>, k: nat, cut: nat)
    requires f.Frames(events) && k <= |events| && cut <= LineStart(f, events, k)
    ensures var torn, m := Lines(f, events, 0, k)[..cut], WholeLines(f, events, k, cut);
            var n := ValidFrom(f, torn, 0, 0);
            && torn[..n] == Lines(f, events, 0, m)
            && Decode(f, torn[..n], 0) == events[..m]
  {
    var torn, m := Lines(f, events, 0, k)[..cut], WholeLines(f, events, k, cut);
    TornLogScan(f, events, k, cut, 0);
    LinesSplit(f, events, 0, m, k);
    assert torn[..LineStart(f, events, m)] == Lines(f, events, 0, m);
    DecodeLines(f, events, m);
  }

  /** An fsync is kept: a cut at or past the end of the first `s` lines loses none of them. */
  lemma {:induction false} SyncedSurvives(f: Format, events: seq<Event>, k: nat, cut: nat, s: nat)
    requires s <= k <= |events| && LineStart(f, events, s) <= cut
    ensures s <= WholeLines(f, events, k, cut)
  {
    var m := WholeLines(f, events, k, cut);
    if m < s {
      StartsGrow(f, events, m + 1, s);
    }
  }
}
