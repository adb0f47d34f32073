/** The group-durability log: events written as they are recorded, fsyncs coalesced, and the
    tail repair that a resume starts from. */
module GroupLog {
  import opened Wrappers
  import opened Events

  const NEWLINE: bv8 := 10

  /** What reading one line (its newline taken off) of the log says about it. */
  datatype Line =
    | Blank
    | Unreadable
    | Entry(crcBroken: bool, seqNo: Option<int>, completed: bool)

  /** The framing the workflow layer supplies: how an event becomes a line, what a line says,
      and which event it holds. */
  datatype Format = Format(serialize: (nat, Event) -> Bytes, read: Bytes -> Line, event: Bytes -> Option<Event>)
  {
    /** The record of every reading is one newline-terminated line that reads back as itself. */
    ghost predicate Faithful() {
      forall i: nat, e: Event :: e.IsReading() ==> FramesOne(i, e)
    }

    /** The records of these events are such lines. */
    ghost predicate Frames(events: seq<Event>) {
      forall i :: 0 <= i < |events| ==> FramesOne(i, events[i])
    }

    ghost predicate FramesOne(i: nat, e: Event) {
      var line := serialize(i, e);
      && |line| > 0 && line[|line| - 1] == NEWLINE
      && (forall k :: 0 <= k < |line| - 1 ==> line[k] != NEWLINE)
      && read(line[..|line| - 1]) == Entry(false, Some(i), false)
      && event(line[..|line| - 1]) == Some(e)
    }
  }

  /** A file: what has been written, and how much of it an fsync has pinned. */
  datatype File = File(bytes: Bytes, durable: nat)

  /** What one step meets outside: the instant it reads, the instant the window check reads,
      and whether the write and the fsync succeed. A failed write leaves the file as it was. */
  datatype Io = Io(now: real, checked: real, writeOk: bool, syncOk: bool)

  datatype Log = Log(
    file: File,
    persisted: nat,
    unsynced: nat,
    oldest: Option<real>,
    windowMs: real,
    maxEvents: nat,
    format: Format)

  function Opened(file: File, persisted: nat, windowMs: real, maxEvents: nat, format: Format): Log {
    Log(file, persisted, 0, None, windowMs, maxEvents, format)
  }

  /** The lines of `events[lo..hi]`, each under its own index. */
  function Lines(f: Format, events: seq<Event>, lo: nat, hi: nat): Bytes
    requires lo <= hi <= |events|
    decreases hi - lo
  {
    if lo == hi then [] else Lines(f, events, lo, hi - 1) + f.serialize(hi - 1, events[hi - 1])
  }

  function MaybeFsync(l: Log, io: Io): (bool, Log) {
    var due := l.unsynced >= l.maxEvents || (l.oldest.Some? && io.checked - l.oldest.value >= l.windowMs);
    if due && l.unsynced > 0 then
      if io.syncOk then (true, l.(unsynced := 0, oldest := None, file := File(l.file.bytes, |l.file.bytes|)))
      else (false, l)
    else (true, l)
  }

  function Appended(l: Log, bytes: Bytes, records: nat, io: Io): Log {
    l.(file := File(l.file.bytes + bytes, l.file.durable),
       unsynced := l.unsynced + records,
       oldest := if l.oldest.None? then Some(io.now) else l.oldest)
  }

  function PumpFrom(l: Log, events: seq<Event>, io: Io): (bool, Log) {
    if l.persisted >= |events| then (true, l)
    else if !io.writeOk then (false, l)
    else
      var batch := Lines(l.format, events, l.persisted, |events|);
      MaybeFsync(Appended(l, batch, |events| - l.persisted, io).(persisted := |events|), io)
  }

  function Finish(l: Log, terminal: Bytes, io: Io): (bool, Log) {
    if terminal == [] then MaybeFsync(l, io)
    else if !io.writeOk then (false, l)
    else MaybeFsync(Appended(l, terminal, 1, io), io)
  }

  // ----- what every run of the appender keeps -----

  /** The file is `base` followed by the lines of `events` from index `first` to the persisted
      count, each once. */
  ghost predicate Holds(l: Log, base: Bytes, first: nat, events: seq<Event>) {
    && first + l.unsynced <= l.persisted <= |events|
    && l.file.bytes == base + Lines(l.format, events, first, l.persisted)
    && l.file.durable <= |l.file.bytes|
    && (l.unsynced == 0 <==> l.oldest.None?)
  }

  /** Everything in the file but the records counted as unsynced is durable. */
  ghost predicate Pinned(l: Log, base: Bytes, first: nat, events: seq<Event>)
    requires Holds(l, base, first, events)
  {
    |base + Lines(l.format, events, first, l.persisted - l.unsynced)| <= l.file.durable
  }

  lemma {:induction false} LinesSplit(f: Format, events: seq<Event>, lo: nat, mid: nat, hi: nat)
    requires lo <= mid <= hi <= |events|
    ensures Lines(f, events, lo, hi) == Lines(f, events, lo, mid) + Lines(f, events, mid, hi)
    decreases hi
  {
    if mid < hi {
      LinesSplit(f, events, lo, mid, hi - 1);
    }
  }

  lemma {:induction false} LinesPrefix(f: Format, events: seq<Event>, more: seq<Event>, lo: nat, hi: nat)
    requires lo <= hi <= |events|
    ensures Lines(f, events + more, lo, hi) == Lines(f, events, lo, hi)
    decreases hi
  {
    if lo < hi {
      LinesPrefix(f, events, more, lo, hi - 1);
    }
  }

  lemma HoldsGrown(l: Log, base: Bytes, first: nat, events: seq<Event>, more: seq<Event>)
    requires Holds(l, base, first, events)
    ensures Holds(l, base, first, events + more)
    ensures Pinned(l, base, first, events + more) <==> Pinned(l, base, first, events)
  {
    LinesPrefix(l.format, events, more, first, l.persisted);
    LinesPrefix(l.format, events, more, first, l.persisted - l.unsynced);
  }

  lemma PumpHolds(l: Log, base: Bytes, first: nat, events: seq<Event>, io: Io)
    requires Holds(l, base, first, events)
    ensures var l' := PumpFrom(l, events, io).1;
            && Holds(l', base, first, events)
            && l.file.durable <= l'.file.durable && l.file.bytes <= l'.file.bytes
            && (Pinned(l, base, first, events) || l.file.durable < l'.file.durable ==> Pinned(l', base, first, events))
            && l.persisted <= l'.persisted && l.persisted - l.unsynced <= l'.persisted - l'.unsynced
            && (Pinned(l', base, first, events) || l'.persisted - l'.unsynced == l.persisted - l.unsynced)
  {
    if l.persisted < |events| && io.writeOk {
      LinesSplit(l.format, events, first, l.persisted, |events|);
      var a := Appended(l, Lines(l.format, events, l.persisted, |events|), |events| - l.persisted, io);
      assert a.file.bytes == base + Lines(l.format, events, first, |events|);
    }
  }

  /** One recorded event: pushed, then pumped. */
  function RecordOne(l: Log, events: seq<Event>, e: Event, io: Io): (bool, Log) {
    PumpFrom(l, events + [e], io)
  }

  /** The durability contract of one successful record: every event is in the file, fewer than
      the cap are waiting for an fsync, and the oldest of those is younger than the window. */
  lemma RecordedIsBounded(l: Log, base: Bytes, first: nat, events: seq<Event>, e: Event, io: Io)
    requires Holds(l, base, first, events)
    ensures var (ok, l') := RecordOne(l, events, e, io);
            && Holds(l', base, first, events + [e])
            && (ok ==>
                  && l'.persisted == |events| + 1
                  && l'.unsynced < (if l.maxEvents > 1 then l.maxEvents else 1)
                  && (l'.oldest.Some? ==> io.checked - l'.oldest.value < l.windowMs))
            && (!ok <==> !io.writeOk || (!io.syncOk && l'.unsynced > 0 && Due(l', io)))
            && (Pinned(l, base, first, events) ==> Pinned(l', base, first, events + [e]))
  {
    HoldsGrown(l, base, first, events, [e]);
    PumpHolds(l, base, first, events + [e], io);
  }

  predicate Due(l: Log, io: Io) {
    l.unsynced >= l.maxEvents || (l.oldest.Some? && io.checked - l.oldest.value >= l.windowMs)
  }

  /** A whole run: one event and one outside world a step. */
  function RecordAll(l: Log, events: seq<Event>, steps: seq<(Event, Io)>): (Log, seq<Event>)
  {
    if steps == [] then (l, events)
    else
      var n := |steps| - 1;
      var (m, es) := RecordAll(l, events, steps[..n]);
      (RecordOne(m, es, steps[n].0, steps[n].1).1, es + [steps[n].0])
  }

  function EventsOf(steps: seq<(Event, Io)>): (es: seq<Event>)
    ensures |es| == |steps|
  {
    seq(|steps|, i requires 0 <= i < |steps| => steps[i].0)
  }

  /** Over every run, whatever writes and fsyncs fail: the file is the prefix it was opened on
      followed by recorded events in order, each exactly once under its own index, with no gap;
      a step whose write succeeds leaves none behind. */
  lemma {:induction false} RunHolds(l: Log, base: Bytes, events: seq<Event>, steps: seq<(Event, Io)>)
    requires Holds(l, base, l.persisted, events)
    ensures var (m, es) := RecordAll(l, events, steps);
            && es == events + EventsOf(steps)
            && Holds(m, base, l.persisted, es)
            && (Pinned(l, base, l.persisted, events) ==> Pinned(m, base, l.persisted, es))
            && m.format == l.format
            && (steps != [] && steps[|steps| - 1].1.writeOk ==> m.persisted == |es|)
  {
    if steps == [] {
      assert events + EventsOf(steps) == events;
    } else {
      var n := |steps| - 1;
      RunHolds(l, base, events, steps[..n]);
      var (m, es) := RecordAll(l, events, steps[..n]);
      RecordedIsBounded(m, base, l.persisted, es, steps[n].0, steps[n].1);
      assert EventsOf(steps) == EventsOf(steps[..n]) + [steps[n].0];
      assert events + EventsOf(steps) == events + EventsOf(steps[..n]) + [steps[n].0];
    }
  }

  /** Finishing adds the terminal line, counted as one more record, and nothing else. An fsync is not forced: one
      happens exactly when the cap is reached or the oldest record still waiting is as old as the window. */
  lemma FinishAppends(l: Log, base: Bytes, first: nat, events: seq<Event>, terminal: Bytes, io: Io)
    requires Holds(l, base, first, events)
    ensures var (ok, l') := Finish(l, terminal, io);
            var waiting := l.unsynced + if terminal == [] then 0 else 1;
            var oldest := if l.unsynced == 0 then io.now else l.oldest.value;
            var due := waiting > 0 && (waiting >= l.maxEvents || io.checked - oldest >= l.windowMs);
            if terminal != [] && !io.writeOk then !ok && l' == l
            else
              && (ok <==> !due || io.syncOk)
              && l'.file.bytes == l.file.bytes + terminal && l'.persisted == l.persisted
              && if due && io.syncOk
                 then l'.file.durable == |l'.file.bytes| && l'.unsynced == 0 && l'.oldest == None
                 else
                   && l'.file.durable == l.file.durable && l'.unsynced == waiting
                   && l'.oldest == if waiting == 0 then None else Some(oldest)
  {
  }

  /** The appender as the context holds it. */
  class GroupAppender {
    var file: File
    var persisted: nat
    var unsynced: nat
    var oldestUnsynced: Option<real>
    const windowMs: real
    const maxEvents: nat
    const format: Format

    ghost function View(): Log
      reads this
    {
      Log(file, persisted, unsynced, oldestUnsynced, windowMs, maxEvents, format)
    }

    constructor (file: File, persisted: nat, windowMs: real, maxEvents: nat, format: Format)
      ensures View() == Opened(file, persisted, windowMs, maxEvents, format)
    {
      this.file := file;
      this.persisted := persisted;
      this.unsynced := 0;
      this.oldestUnsynced := None;
      this.windowMs := windowMs;
      this.maxEvents := maxEvents;
      this.format := format;
    }

    method WriteAll(batch: Bytes, io: Io) returns (ok: bool)
      modifies this`file
      ensures ok == io.writeOk
      ensures file == if ok then File(old(file).bytes + batch, old(file).durable) else old(file)
    {
      ok := io.writeOk;
      if ok { file := File(file.bytes + batch, file.durable); }
    }

    method SyncAll(io: Io) returns (ok: bool)
      modifies this`file
      ensures ok == io.syncOk
      ensures file == if ok then File(old(file).bytes, |old(file).bytes|) else old(file)
    {
      ok := io.syncOk;
      if ok { file := File(file.bytes, |file.bytes|); }
    }

    method DoPumpFrom(events: seq<Event>, io: Io) returns (ok: bool)
      modifies this
      ensures (ok, View()) == PumpFrom(old(View()), events, io)
    {
      if persisted >= |events| {
        return true;
      }
      var now := io.now;
      var batch: Bytes := [];
      var newRecords := 0;
      for seqNo := persisted to |events|
        invariant batch == Lines(format, events, persisted, seqNo)
        invariant newRecords == seqNo - persisted
        invariant View() == old(View())
      {
        batch := batch + format.serialize(seqNo, events[seqNo]);
        newRecords := newRecords + 1;
      }
      var wrote := WriteAll(batch, io);
      if !wrote {
        return false;
      }
      persisted := |events|;
      if oldestUnsynced.None? {
        oldestUnsynced := Some(now);
      }
      unsynced := unsynced + newRecords;
      ok := DoMaybeFsync(io);
    }

    method DoMaybeFsync(io: Io) returns (ok: bool)
      modifies this
      ensures (ok, View()) == MaybeFsync(old(View()), io)
    {
      var due := unsynced >= maxEvents
        || (oldestUnsynced.Some? && io.checked - oldestUnsynced.value >= windowMs);
      if due && unsynced > 0 {
        var synced := SyncAll(io);
        if !synced {
          return false;
        }
        unsynced := 0;
        oldestUnsynced := None;
      }
      return true;
    }

    method DoFinish(terminal: Bytes, io: Io) returns (ok: bool)
      modifies this
      ensures (ok, View()) == Finish(old(View()), terminal, io)
    {
      if terminal != [] {
        var wrote := WriteAll(terminal, io);
        if !wrote {
          return false;
        }
        if oldestUnsynced.None? {
          oldestUnsynced := Some(io.now);
        }
        unsynced := unsynced + 1;
      }
      ok := DoMaybeFsync(io);
    }
  }
}
