/** When the appender forces its records to disk, told from the instants at which they were written. */
module SyncWindow {
  import opened Wrappers
  import opened Events
  import opened GroupLog

  type Steps = seq<(Event, Io)>

  /** The instant at which each record was written: each step adds one to the `backlog` waiting at the start,
      and a write that succeeds takes all that are waiting. */
  function WriteTimes(backlog: nat, steps: Steps): (times: seq<real>)
    ensures |times| <= backlog + |steps|
    ensures steps != [] && steps[|steps| - 1].1.writeOk ==> |times| == backlog + |steps|
  {
    if steps == [] then []
    else
      var times, io := WriteTimes(backlog, steps[..|steps| - 1]), steps[|steps| - 1].1;
      if io.writeOk then times + seq(backlog + |steps| - |times|, _ => io.now) else times
  }

  /** How many of them were covered by an fsync: a step whose write succeeds forces one when the cap is reached
      or the record written first of those not yet covered is as old as the window. */
  function Covered(windowMs: real, cap: nat, backlog: nat, steps: Steps): (n: nat)
    ensures n <= |WriteTimes(backlog, steps)|
  {
    if steps == [] then 0
    else
      var front, io := steps[..|steps| - 1], steps[|steps| - 1].1;
      var was, times := Covered(windowMs, cap, backlog, front), WriteTimes(backlog, steps);
      if io.writeOk && io.syncOk && (|times| - was >= cap || io.checked - times[was] >= windowMs) then |times| else was
  }

  /** The appender's counters, after `steps` on a log opened as `l`. */
  ghost predicate CountsBooked(l: Log, events: seq<Event>, steps: Steps, m: Log, es: seq<Event>)
    requires l.persisted <= |events|
  {
    var backlog := |events| - l.persisted;
    var times, covered := WriteTimes(backlog, steps), Covered(l.windowMs, l.maxEvents, backlog, steps);
    && m.windowMs == l.windowMs && m.maxEvents == l.maxEvents && m.format == l.format
    && |es| == |events| + |steps| && m.persisted == l.persisted + |times| && m.unsynced == |times| - covered
    && m.oldest == if covered < |times| then Some(times[covered]) else None
  }

  /** What is durable is what the last fsync covered. */
  ghost predicate DurableBooked(l: Log, base: Bytes, events: seq<Event>, steps: Steps, m: Log, es: seq<Event>)
    requires l.persisted <= |events| && |es| == |events| + |steps|
  {
    var covered := Covered(l.windowMs, l.maxEvents, |events| - l.persisted, steps);
    m.file.durable == if covered == 0 then l.file.durable
                      else |base + Lines(l.format, es, l.persisted, l.persisted + covered)|
  }

  ghost predicate Booked(l: Log, base: Bytes, events: seq<Event>, steps: Steps, m: Log, es: seq<Event>)
    requires l.persisted <= |events|
  {
    CountsBooked(l, events, steps, m, es) && DurableBooked(l, base, events, steps, m, es)
  }

  /** One step: a failed write changes nothing; otherwise every record is written, and either all are forced to
      disk or the oldest of those waiting stays the oldest. */
  lemma RecordMoves(m: Log, base: Bytes, first: nat, es: seq<Event>, e: Event, io: Io)
    requires Holds(m, base, first, es)
    ensures var m', waiting := RecordOne(m, es, e, io).1, m.unsynced + (|es| + 1 - m.persisted);
            var oldest := if m.oldest.Some? then m.oldest.value else io.now;
            && m'.windowMs == m.windowMs && m'.maxEvents == m.maxEvents && m'.format == m.format
            && if !io.writeOk then m' == m
               else
                 && m'.persisted == |es| + 1
                 && if io.syncOk && (waiting >= m.maxEvents || io.checked - oldest >= m.windowMs)
                    then
                      && m'.unsynced == 0 && m'.oldest == None
                      && m'.file.durable == |base + Lines(m.format, es + [e], first, |es| + 1)|
                    else m'.unsynced == waiting && m'.oldest == Some(oldest) && m'.file.durable == m.file.durable
  {
    HoldsGrown(m, base, first, es, [e]);
    PumpHolds(m, base, first, es + [e], io);
  }

  /** One step in the book. */
  lemma BookedMoves(windowMs: real, cap: nat, backlog: nat, steps: Steps, e: Event, io: Io)
    ensures var was, now := WriteTimes(backlog, steps), WriteTimes(backlog, steps + [(e, io)]);
            var covered, covered' := Covered(windowMs, cap, backlog, steps), Covered(windowMs, cap, backlog, steps + [(e, io)]);
            if !io.writeOk then now == was && covered' == covered
            else
              && was <= now && |now| == backlog + |steps| + 1 && (|was| < |now| && now[|was|] == io.now)
              && covered' == if io.syncOk && (|now| - covered >= cap || io.checked - now[covered] >= windowMs) then |now| else covered
  {
    assert (steps + [(e, io)])[..|steps|] == steps;
  }

  lemma CountsOne(l: Log, base: Bytes, events: seq<Event>, steps: Steps, m: Log, es: seq<Event>, e: Event, io: Io)
    requires Holds(l, base, l.persisted, events) && Holds(m, base, l.persisted, es) && CountsBooked(l, events, steps, m, es)
    ensures CountsBooked(l, events, steps + [(e, io)], RecordOne(m, es, e, io).1, es + [e])
  {
    var backlog := |events| - l.persisted;
    RecordMoves(m, base, l.persisted, es, e, io);
    BookedMoves(l.windowMs, l.maxEvents, backlog, steps, e, io);
    var covered := Covered(l.windowMs, l.maxEvents, backlog, steps);
    assert m.oldest.Some? ==> m.oldest.value == WriteTimes(backlog, steps + [(e, io)])[covered];
  }

  /** A step that leaves `m'` forces everything to disk when the book says so, and else nothing. */
  ghost predicate ForcedAsBooked(l: Log, base: Bytes, backlog: nat, steps: Steps, m: Log, es: seq<Event>, e: Event,
                                 io: Io, m': Log)
  {
    var covered := Covered(l.windowMs, l.maxEvents, backlog, steps + [(e, io)]);
    if covered == Covered(l.windowMs, l.maxEvents, backlog, steps) then m'.file.durable == m.file.durable
    else
      && covered > 0 && l.persisted + covered == |es| + 1
      && m'.file.durable == |base + Lines(l.format, es + [e], l.persisted, |es| + 1)|
  }

  lemma SyncsAsBooked(l: Log, base: Bytes, events: seq<Event>, steps: Steps, m: Log, es: seq<Event>, e: Event, io: Io)
    requires Holds(l, base, l.persisted, events) && Holds(m, base, l.persisted, es) && CountsBooked(l, events, steps, m, es)
    ensures ForcedAsBooked(l, base, |events| - l.persisted, steps, m, es, e, io, RecordOne(m, es, e, io).1)
  {
    var backlog := |events| - l.persisted;
    RecordMoves(m, base, l.persisted, es, e, io);
    BookedMoves(l.windowMs, l.maxEvents, backlog, steps, e, io);
    var covered := Covered(l.windowMs, l.maxEvents, backlog, steps);
    assert m.oldest.Some? ==> m.oldest.value == WriteTimes(backlog, steps + [(e, io)])[covered];
  }

  lemma DurableOne(l: Log, base: Bytes, events: seq<Event>, steps: Steps, m: Log, es: seq<Event>, e: Event, io: Io, m': Log)
    requires Holds(l, base, l.persisted, events) && Holds(m, base, l.persisted, es) && Booked(l, base, events, steps, m, es)
    requires ForcedAsBooked(l, base, |events| - l.persisted, steps, m, es, e, io, m')
    ensures DurableBooked(l, base, events, steps + [(e, io)], m', es + [e])
  {
    DurableStays(l, base, events, steps, m, es, e);
    assert |es + [e]| == |es| + 1;
  }

  /** What was durable before a further record is durable after it. */
  lemma DurableStays(l: Log, base: Bytes, events: seq<Event>, steps: Steps, m: Log, es: seq<Event>, e: Event)
    requires Holds(l, base, l.persisted, events) && Holds(m, base, l.persisted, es)
    requires Booked(l, base, events, steps, m, es)
    ensures var covered := Covered(l.windowMs, l.maxEvents, |events| - l.persisted, steps);
            && l.persisted + covered <= |es|
            && m.file.durable == if covered == 0 then l.file.durable
                                 else |base + Lines(l.format, es + [e], l.persisted, l.persisted + covered)|
  {
    var covered := Covered(l.windowMs, l.maxEvents, |events| - l.persisted, steps);
    LinesPrefix(l.format, es, [e], l.persisted, l.persisted + covered);
  }

  /** Over every run, whatever writes and fsyncs fail: the record counted as the oldest unsynced is the first one
      that no fsync has covered, an fsync is forced exactly when the cap or the window asks for it, and what is
      durable is what the last one covered. */
  lemma {:induction false} RunBooked(l: Log, base: Bytes, events: seq<Event>, steps: Steps)
    requires Holds(l, base, l.persisted, events)
    ensures Booked(l, base, events, steps, RecordAll(l, events, steps).0, RecordAll(l, events, steps).1)
  {
    if steps != [] {
      var n := |steps| - 1;
      RunBooked(l, base, events, steps[..n]);
      RunHolds(l, base, events, steps[..n]);
      var (m, es) := RecordAll(l, events, steps[..n]);
      CountsOne(l, base, events, steps[..n], m, es, steps[n].0, steps[n].1);
      SyncsAsBooked(l, base, events, steps[..n], m, es, steps[n].0, steps[n].1);
      DurableOne(l, base, events, steps[..n], m, es, steps[n].0, steps[n].1, RecordOne(m, es, steps[n].0, steps[n].1).1);
      assert steps == steps[..n] + [(steps[n].0, steps[n].1)];
    }
  }

  ghost predicate TimeMovesOn(steps: Steps) {
    forall j, k :: 0 <= j <= k < |steps| ==> steps[j].1.now <= steps[k].1.now
  }

  /** Instants in order, none after `now`. */
  ghost predicate InOrder(times: seq<real>, now: real) {
    (forall i, j :: 0 <= i <= j < |times| ==> times[i] <= times[j]) && forall i :: 0 <= i < |times| ==> times[i] <= now
  }

  lemma InOrderMore(times: seq<real>, was: real, now: real, n: nat)
    requires InOrder(times, was) && was <= now
    ensures InOrder(times, now) && InOrder(times + seq(n, _ => now), now)
  {
  }

  lemma {:induction false} TimesInOrder(backlog: nat, steps: Steps)
    requires TimeMovesOn(steps) && steps != []
    ensures InOrder(WriteTimes(backlog, steps), steps[|steps| - 1].1.now)
  {
    var front, io := steps[..|steps| - 1], steps[|steps| - 1].1;
    var was := WriteTimes(backlog, front);
    if front == [] {
      InOrderMore([], io.now, io.now, backlog + |steps| - |was|);
    } else {
      TimesInOrder(backlog, front);
      assert front[|front| - 1].1.now <= io.now;
      InOrderMore(was, front[|front| - 1].1.now, io.now, backlog + |steps| - |was|);
    }
  }

  /** The last step was reported as a success. */
  ghost predicate LastSucceeds(l: Log, events: seq<Event>, steps: Steps)
    requires steps != []
  {
    var n := |steps| - 1;
    var (m, es) := RecordAll(l, events, steps[..n]);
    RecordOne(m, es, steps[n].0, steps[n].1).0
  }

  lemma SuccessBounds(l: Log, base: Bytes, events: seq<Event>, steps: Steps)
    requires Holds(l, base, l.persisted, events) && steps != [] && LastSucceeds(l, events, steps)
    ensures var m := RecordAll(l, events, steps).0;
            && m.persisted == |events| + |steps| && m.unsynced < (if l.maxEvents > 1 then l.maxEvents else 1)
            && (m.oldest.Some? ==> steps[|steps| - 1].1.checked - m.oldest.value < l.windowMs)
  {
    var n := |steps| - 1;
    RunHolds(l, base, events, steps[..n]);
    RunBooked(l, base, events, steps[..n]);
    var (before, es) := RecordAll(l, events, steps[..n]);
    RecordedIsBounded(before, base, l.persisted, es, steps[n].0, steps[n].1);
  }

  /** No record still waiting was written before the oldest one. */
  lemma WaitingSince(times: seq<real>, now: real, covered: nat, i: nat, checked: real, windowMs: real)
    requires InOrder(times, now) && covered <= i < |times| && checked - times[covered] < windowMs
    ensures checked - times[i] < windowMs
  {
  }

  /** The durability contract, for a clock that never runs back. After a step that succeeds every record is in the
      file, fewer than the cap are waiting for an fsync, and every one of those was written less than the window
      before the check. */
  lemma WindowHolds(l: Log, base: Bytes, events: seq<Event>, steps: Steps, i: nat)
    requires Holds(l, base, l.persisted, events) && steps != [] && TimeMovesOn(steps) && LastSucceeds(l, events, steps)
    requires var m := RecordAll(l, events, steps).0; m.persisted - m.unsynced <= i < m.persisted
    ensures var m, times := RecordAll(l, events, steps).0, WriteTimes(|events| - l.persisted, steps);
            && m.persisted == |events| + |steps| == l.persisted + |times| && l.persisted <= i
            && steps[|steps| - 1].1.checked - times[i - l.persisted] < l.windowMs
            && m.unsynced < if l.maxEvents > 1 then l.maxEvents else 1
  {
    var backlog := |events| - l.persisted;
    SuccessBounds(l, base, events, steps);
    RunBooked(l, base, events, steps);
    TimesInOrder(backlog, steps);
    WaitingSince(WriteTimes(backlog, steps), steps[|steps| - 1].1.now, Covered(l.windowMs, l.maxEvents, backlog, steps),
                 i - l.persisted, steps[|steps| - 1].1.checked, l.windowMs);
  }
}
