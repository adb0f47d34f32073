/** A workflow under group durability, crashed and resumed any number of times. The program runs
    over the four value seams; a crash keeps any length of the log file between what was fsynced
    and what was written, cut at any byte. */
module CrashResume {
  import opened Wrappers
  import opened Events
  import opened Rng
  import opened GroupLog
  import opened LogRepair
  import opened Determinism
  import opened Replay

  ghost predicate OverValues(p: Program) {
    forall xs :: p(xs).Some? ==> p(xs).value.IsValue()
  }

  /** The answers a log tells a program: each event answers the request the earlier ones lead to. */
  function Retell(p: Program, events: seq<Event>): seq<Answer> {
    if events == [] then []
    else
      var n := |events| - 1;
      var xs := Retell(p, events[..n]);
      match p(xs)
      case None => xs
      case Some(r) => match Replayed(r, events[n]) case None => xs case Some(a) => xs + [a]
  }

  /** `events` is the record of some run of `p`. */
  ghost predicate Told(p: Program, events: seq<Event>) {
    Explains(p, events, Retell(p, events))
  }

  lemma {:induction false} RetellsTheRun(p: Program, events: seq<Event>, xs: seq<Answer>)
    requires Explains(p, events, xs)
    ensures Retell(p, events) == xs
  {
    if events != [] {
      var n := |events| - 1;
      ExplainsPrefix(p, events, xs, n);
      RetellsTheRun(p, events[..n], xs[..n]);
      assert ExplainsAt(p, events[n], xs, n);
      RetellsOneMore(p, events, xs[..n], xs[n]);
      assert xs == xs[..n] + [xs[n]];
    }
  }

  lemma RetellsOneMore(p: Program, events: seq<Event>, xs: seq<Answer>, a: Answer)
    requires events != [] && Retell(p, events[..|events| - 1]) == xs
    requires p(xs).Some? && Replayed(p(xs).value, events[|events| - 1]) == Some(a)
    ensures Retell(p, events) == xs + [a]
  {
  }

  lemma TellPrefix(p: Program, events: seq<Event>, m: nat)
    requires Told(p, events) && m <= |events|
    ensures Told(p, events[..m]) && Retell(p, events[..m]) == Retell(p, events)[..m]
  {
    ExplainsPrefix(p, events, Retell(p, events), m);
    RetellsTheRun(p, events[..m], Retell(p, events)[..m]);
  }

  // ----- one round in memory -----

  /** The log of a context is in order: it holds the context's own events from the first on. */
  ghost predicate LogInOrder(c: Context) {
    c.group.Some? && Holds(c.group.value, [], 0, c.events)
  }

  /** The records the appender does not count as unsynced. */
  function Counted(l: Log): int {
    l.persisted - l.unsynced
  }

  /** They are durable. */
  ghost predicate CountedDurable(c: Context)
    requires LogInOrder(c)
  {
    Pinned(c.group.value, [], 0, c.events)
  }

  /** The log stays in order and what is durable never shrinks; the records counted change only by an
      fsync, which makes them all durable. */
  ghost predicate KeepsLog(c: Context, c': Context)
    requires LogInOrder(c)
  {
    && LogInOrder(c')
    && var (l, l') := (c.group.value, c'.group.value);
       && l'.format == l.format && l.persisted <= l'.persisted && l.file.durable <= l'.file.durable
       && (CountedDurable(c) ==> CountedDurable(c'))
       && Counted(l) <= Counted(l') && (CountedDurable(c') || Counted(l') == Counted(l))
  }

  /** What a resumed run needs of the seams besides soundness: out of events, a value seam turns
      to recording; whatever happens, the log stays in order. */
  ghost predicate ResumesAt(seams: Seams, c: Context, r: Request, k: nat) {
    c.mode == Replay && !c.strict && c.cursor == |c.events| && r.IsValue() ==>
      var (a, c') := seams(c, r, k);
      && c'.mode == Record && |c'.events| == |c.events| + 1 && c'.events[..|c.events|] == c.events
      && Replayed(r, c'.events[|c.events|]) == Some(a)
  }

  ghost predicate LogsAt(seams: Seams, c: Context, r: Request, k: nat) {
    LogInOrder(c) ==> KeepsLog(c, seams(c, r, k).1)
  }

  ghost predicate Durable(seams: Seams) {
    forall c, r, k: nat :: ResumesAt(seams, c, r, k) && LogsAt(seams, c, r, k)
  }

  lemma ResumeStep(c: Context, r: Request, w: World)
    requires c.mode == Replay && !c.strict && c.cursor == |c.events| && r.IsValue()
    ensures var (a, c') := Serve(c, r, w);
            && c'.mode == Record && |c'.events| == |c.events| + 1 && c'.events[..|c.events|] == c.events
            && Replayed(r, c'.events[|c.events|]) == Some(a)
  {
    RecordedReplays(r, Draw(c, r).0, r);
  }

  lemma PushInOrder(c: Context, e: Event, io: Io)
    requires LogInOrder(c)
    ensures KeepsLog(c, Push(c, e, io))
  {
    HoldsGrown(c.group.value, [], 0, c.events, [e]);
    PumpHolds(c.group.value, [], 0, c.events + [e], io);
  }

  lemma DrawnInOrder(c: Context, r: Request, io: Io)
    requires LogInOrder(c) && r.IsValue()
    ensures KeepsLog(c, DrawAndRecord(c, r, io).1)
  {
    var (a, drawn) := Draw(c, r);
    PushInOrder(drawn, Recorded(r, a), io);
  }

  /** What leaves the log and the events alone keeps the log. */
  lemma SameLog(c: Context, c': Context)
    requires LogInOrder(c) && c'.group == c.group && c'.events == c.events
    ensures KeepsLog(c, c')
  {
  }

  lemma ValueInOrder(c: Context, r: Request, io: Io)
    requires LogInOrder(c) && r.IsValue()
    ensures KeepsLog(c, ServeValue(c, r, io).1)
  {
    if c.mode == Record {
      DrawnInOrder(c, r, io);
    } else if AtCursor(c, r).None? && !c.strict && c.cursor >= |c.events| {
      DrawnInOrder(c.(mode := Record), r, io);
    } else {
      SameLog(c, ServeValue(c, r, io).1);
    }
  }

  lemma LogStep(c: Context, r: Request, w: World)
    requires LogInOrder(c)
    ensures KeepsLog(c, Serve(c, r, w).1)
  {
    if r.IsValue() {
      ValueInOrder(c, r, w.io);
    } else {
      BoundaryInOrder(c, r, w);
    }
  }

  lemma BoundaryInOrder(c: Context, r: Request, w: World)
    requires LogInOrder(c) && !r.IsValue()
    ensures KeepsLog(c, ServeBoundary(c, r, w).1)
  {
    if c.mode == Record {
      PushInOrder(c, Recorded(r, w.Answer(r)), w.io);
    } else {
      SameLog(c, ServeBoundary(c, r, w).1);
    }
  }

  lemma SeamsDurable(ws: nat -> World)
    ensures Durable(SeamsIn(ws))
  {
    forall c, r, k: nat ensures ResumesAt(SeamsIn(ws), c, r, k) && LogsAt(SeamsIn(ws), c, r, k) {
      if c.mode == Replay && !c.strict && c.cursor == |c.events| && r.IsValue() { ResumeStep(c, r, ws(k)); }
      if LogInOrder(c) { LogStep(c, r, ws(k)); }
    }
  }

  /** Where a resume from the surviving events `first` stands after the answers `xs`: still
      retelling them, or past their end and recording. */
  ghost predicate Resumed(p: Program, first: seq<Event>, xs: seq<Answer>, c: Context) {
    && LogInOrder(c) && first <= c.events && Told(p, c.events) && xs <= Retell(p, c.events)
    && (c.mode == Replay ==> c.events == first && c.cursor == |xs| && !c.strict && |xs| <= |first|)
    && (c.mode == Record ==> |xs| == |c.events| > |first|)
  }

  /** A lenient resume from a told log retells it, then records on from its end. */
  lemma {:induction false} ResumeRun(p: Program, seams: Seams, c: Context, n: nat)
    requires OverValues(p) && Sound(seams) && Durable(seams)
    requires c.mode == Replay && !c.strict && c.cursor == 0 && Told(p, c.events) && LogInOrder(c)
    ensures var (xs, c') := Run(p, seams, c, n);
            Resumed(p, c.events, xs, c') && KeepsLog(c, c')
  {
    if n > 0 {
      ResumeRun(p, seams, c, n - 1);
      var (xs, c') := Run(p, seams, c, n - 1);
      if p(xs).Some? {
        ResumeOne(p, seams, c.events, xs, c');
      }
    }
  }

  lemma ResumeOne(p: Program, seams: Seams, first: seq<Event>, xs: seq<Answer>, c: Context)
    requires OverValues(p) && Sound(seams) && Durable(seams) && p(xs).Some?
    requires Resumed(p, first, xs, c)
    ensures var (a, c') := seams(c, p(xs).value, |xs|);
            Resumed(p, first, xs + [a], c') && KeepsLog(c, c')
  {
    var r, k := p(xs).value, |xs|;
    assert LogsAt(seams, c, r, k);
    if c.mode == Replay && k < |first| {
      ResumeRetells(p, seams, first, xs, c);
    } else {
      assert xs == Retell(p, c.events);
      assert RecordsAt(seams, c, r, k) && ResumesAt(seams, c, r, k);
      var (a, c') := seams(c, r, k);
      assert c'.events == c.events + [c'.events[k]];
      TellOneMore(p, c.events, c'.events[k], a);
    }
  }

  lemma ResumeRetells(p: Program, seams: Seams, first: seq<Event>, xs: seq<Answer>, c: Context)
    requires Sound(seams) && p(xs).Some? && Resumed(p, first, xs, c)
    requires c.mode == Replay && |xs| < |first|
    ensures var (a, c') := seams(c, p(xs).value, |xs|);
            && c' == c.(cursor := c.cursor + 1, clock := c'.clock)
            && xs + [a] <= Retell(p, c.events)
  {
    var k, told := |xs|, Retell(p, c.events);
    assert ExplainsAt(p, c.events[k], told, k);
    assert told[..k] == xs;
    assert ReplaysAt(seams, c, p(xs).value, k);
    assert told[..k + 1] == xs + [told[k]];
  }

  lemma TellOneMore(p: Program, events: seq<Event>, e: Event, a: Answer)
    requires Told(p, events) && p(Retell(p, events)).Some?
    requires Replayed(p(Retell(p, events)).value, e) == Some(a)
    ensures Told(p, events + [e]) && Retell(p, events + [e]) == Retell(p, events) + [a]
  {
    var xs := Retell(p, events);
    ExplainsMore(p, events, xs, e, a);
    RetellsTheRun(p, events + [e], xs + [a]);
  }

  // ----- crash and resume -----

  /** How a workflow's log is opened. */
  datatype Setup = Setup(format: Format, windowMs: real, maxEvents: nat, prng: Generator)

  /** One round: where the crash before it cut the file, and the run that follows it. */
  datatype Round = Round(cut: nat, seed: bv64, start: Double, worlds: nat -> World, steps: nat)

  /** What a crash interrupts: the appender with its file, the events in memory, and the answers
      the program had been given since it was started or resumed. */
  datatype Stage = Stage(log: Log, events: seq<Event>, shown: seq<Answer>)

  ghost predicate Good(p: Program, setup: Setup, s: Stage) {
    && s.log.format == setup.format
    && Holds(s.log, [], 0, s.events)
    && Told(p, s.events) && s.shown <= Retell(p, s.events)
  }

  /** How many records no crash can take. */
  function Synced(s: Stage): nat
    requires s.log.persisted <= |s.events|
  {
    WholeLines(s.log.format, s.events, s.log.persisted, s.log.file.durable)
  }

  function Appender(setup: Setup, file: File, persisted: nat): Log {
    Opened(file, persisted, setup.windowMs, setup.maxEvents, setup.format)
  }

  function StageAfter(p: Program, c: Context, worlds: nat -> World, steps: nat): Stage
    requires c.group.Some?
  {
    var (xs, c') := Run(p, SeamsIn(worlds), c, steps);
    Stage(if c'.group.Some? then c'.group.value else c.group.value, c'.events, xs)
  }

  /** The first run of a workflow, on an empty log. */
  function Fresh(p: Program, setup: Setup, seed: bv64, start: Double, worlds: nat -> World, steps: nat): Stage {
    StageAfter(p, Recording(false, seed, start, setup.prng).(group := Some(Appender(setup, File([], 0), 0))), worlds, steps)
  }

  /** A crash may keep any length between what was fsynced and what was written. */
  predicate Feasible(s: Stage, r: Round) {
    s.log.file.durable <= r.cut <= |s.log.file.bytes|
  }

  /** What the resume finds: the repaired bytes and the events they hold. */
  function Kept(setup: Setup, s: Stage, r: Round): Bytes
    requires Feasible(s, r)
  {
    var torn := s.log.file.bytes[..r.cut];
    torn[..ValidFrom(setup.format, torn, 0, 0)]
  }

  function Survivors(setup: Setup, s: Stage, r: Round): seq<Event>
    requires Feasible(s, r)
  {
    Decode(setup.format, Kept(setup, s, r), 0)
  }

  /** The repair cuts the file and syncs nothing: of what it keeps, only what was fsynced before is
      durable. The new appender counts all of it as synced. */
  function ResumeContext(setup: Setup, s: Stage, r: Round): Context
    requires Feasible(s, r)
  {
    var kept, events := Kept(setup, s, r), Survivors(setup, s, r);
    Replaying(false, r.seed, r.start, events, setup.prng)
      .(group := Some(Appender(setup, File(kept, Min(s.log.file.durable, |kept|)), |events|)))
  }

  function Min(a: nat, b: nat): nat {
    if a < b then a else b
  }

  function Resume(p: Program, setup: Setup, s: Stage, r: Round): Stage
    requires Feasible(s, r)
  {
    StageAfter(p, ResumeContext(setup, s, r), r.worlds, r.steps)
  }

  /** What survives a crash is the first events of the log, at least all the synced ones; the
      repaired file holds them and nothing else. */
  lemma CrashKeepsPrefix(p: Program, setup: Setup, s: Stage, r: Round)
    requires OverValues(p) && setup.format.Faithful() && Good(p, setup, s) && Feasible(s, r)
    ensures var survivors := Survivors(setup, s, r);
            && Synced(s) <= |survivors| <= |s.events|
            && survivors == s.events[..|survivors|]
            && Kept(setup, s, r) == Lines(setup.format, survivors, 0, |survivors|)
  {
    var f, k := setup.format, s.log.persisted;
    ReadingsOnly(p, s.events, Retell(p, s.events));
    assert [] + Lines(f, s.events, 0, k) == Lines(f, s.events, 0, k);
    TornLogRepairs(f, s.events, k, r.cut);
    var m := WholeLines(f, s.events, k, r.cut);
    SyncedSurvives(f, s.events, k, r.cut, Synced(s));
    LinesOfPrefix(f, s.events, m);
  }

  lemma LinesOfPrefix(f: Format, events: seq<Event>, m: nat)
    requires m <= |events|
    ensures Lines(f, events[..m], 0, m) == Lines(f, events, 0, m)
  {
    assert events == events[..m] + events[m..];
    LinesPrefix(f, events[..m], events[m..], 0, m);
  }

  lemma FreshIsGood(p: Program, setup: Setup, seed: bv64, start: Double, worlds: nat -> World, steps: nat)
    requires OverValues(p)
    ensures Good(p, setup, Fresh(p, setup, seed, start, worlds, steps))
  {
    var c := Recording(false, seed, start, setup.prng).(group := Some(Appender(setup, File([], 0), 0)));
    SeamsSound(worlds);
    SeamsDurable(worlds);
    assert [] + Lines(setup.format, [], 0, 0) == [];
    RecordedInOrder(p, SeamsIn(worlds), c, steps);
    RecordRun(p, SeamsIn(worlds), c, steps);
    var (xs, c') := Run(p, SeamsIn(worlds), c, steps);
    assert c'.events[0..] == c'.events;
    RetellsTheRun(p, c'.events, xs);
  }

  lemma {:induction false} RecordedInOrder(p: Program, seams: Seams, c: Context, n: nat)
    requires Durable(seams) && LogInOrder(c)
    ensures KeepsLog(c, Run(p, seams, c, n).1)
  {
    if n > 0 {
      RecordedInOrder(p, seams, c, n - 1);
      var (xs, c') := Run(p, seams, c, n - 1);
      if p(xs).Some? {
        assert LogsAt(seams, c', p(xs).value, |xs|);
      }
    }
  }

  /** One crash and resume. The new stage is good again; its log begins with every event that
      survived; and wherever the new run has come, it was answered as the old one was. */
  lemma RoundKeeps(p: Program, setup: Setup, s: Stage, r: Round)
    requires OverValues(p) && setup.format.Faithful() && Good(p, setup, s) && Feasible(s, r)
    ensures var t, survivors := Resume(p, setup, s, r), Survivors(setup, s, r);
            && Good(p, setup, t)
            && survivors <= t.events && survivors <= s.events && Synced(s) <= |survivors|
            && Agree(s.shown, t.shown, |survivors|)
            && Synced(s) <= Synced(t)
  {
    CrashKeepsPrefix(p, setup, s, r);
    var survivors := Survivors(setup, s, r);
    TellPrefix(p, s.events, |survivors|);
    ResumedIsGood(p, setup, s, r);
    var t := Resume(p, setup, s, r);
    SamePast(p, s.events, t.events, survivors, s.shown, t.shown);
    SyncedStays(p, setup, s, r, t);
  }

  /** A program over the value seams leaves readings only. */
  lemma ReadingsOnly(p: Program, events: seq<Event>, xs: seq<Answer>)
    requires OverValues(p) && Explains(p, events, xs)
    ensures forall k :: 0 <= k < |events| ==> events[k].IsReading()
  {
    forall k | 0 <= k < |events| ensures events[k].IsReading() {
      assert ExplainsAt(p, events[k], xs, k);
      ReplayedFits(p(xs[..k]).value, events[k]);
    }
  }

  /** Lines within what is durable are synced, in any log that has them. */
  lemma PrefixSynced(setup: Setup, t: Stage, common: seq<Event>, n: nat)
    requires t.log.format == setup.format && common <= t.events && n <= |common| <= t.log.persisted <= |t.events|
    requires |Lines(setup.format, common, 0, n)| <= t.log.file.durable
    ensures n <= Synced(t)
  {
    assert t.events[..n] == common[..n];
    LinesOfPrefix(setup.format, common, n);
    LinesOfPrefix(setup.format, t.events, n);
    SyncedSurvives(setup.format, t.events, t.log.persisted, t.log.file.durable, n);
  }

  /** What was synced before the crash is synced after the round. */
  lemma SyncedStays(p: Program, setup: Setup, s: Stage, r: Round, t: Stage)
    requires OverValues(p) && setup.format.Faithful() && Good(p, setup, s) && Feasible(s, r)
    requires Good(p, setup, t) && Survivors(setup, s, r) <= t.events && |Survivors(setup, s, r)| <= t.log.persisted
    requires Min(s.log.file.durable, |Kept(setup, s, r)|) <= t.log.file.durable
    ensures Synced(s) <= Synced(t)
  {
    CrashKeepsPrefix(p, setup, s, r);
    var survivors, n := Survivors(setup, s, r), Synced(s);
    assert s.events[..n] == survivors[..n];
    LinesOfPrefix(setup.format, s.events, n);
    LinesOfPrefix(setup.format, survivors, n);
    LinesSplit(setup.format, survivors, 0, n, |survivors|);
    PrefixSynced(setup, t, survivors, n);
  }

  lemma SamePast(p: Program, es: seq<Event>, fs: seq<Event>, common: seq<Event>, xs: seq<Answer>, ys: seq<Answer>)
    requires Told(p, es) && Told(p, fs) && common <= es && common <= fs
    requires xs <= Retell(p, es) && ys <= Retell(p, fs)
    ensures Agree(xs, ys, |common|)
  {
    TellPrefix(p, es, |common|);
    TellPrefix(p, fs, |common|);
    assert es[..|common|] == common == fs[..|common|];
    var told := Retell(p, common);
    assert told == Retell(p, es)[..|common|] == Retell(p, fs)[..|common|];
    forall i | 0 <= i < |xs| && i < |ys| && i < |common| ensures xs[i] == ys[i] {
      assert xs[i] == Retell(p, es)[i] == told[i];
      assert ys[i] == Retell(p, fs)[i] == told[i];
    }
  }

  lemma ResumedIsGood(p: Program, setup: Setup, s: Stage, r: Round)
    requires OverValues(p) && Feasible(s, r)
    requires var survivors := Survivors(setup, s, r);
             Told(p, survivors) && Kept(setup, s, r) == Lines(setup.format, survivors, 0, |survivors|)
    ensures var t, survivors, kept := Resume(p, setup, s, r), Survivors(setup, s, r), Kept(setup, s, r);
            && Good(p, setup, t) && survivors <= t.events
            && |survivors| <= t.log.persisted && Min(s.log.file.durable, |kept|) <= t.log.file.durable
            && |survivors| <= Counted(t.log) && (Pinned(t.log, [], 0, t.events) || Counted(t.log) == |survivors|)
  {
    var c := ResumeContext(setup, s, r);
    var kept := Kept(setup, s, r);
    assert [] + kept == kept;
    assert LogInOrder(c);
    SeamsSound(r.worlds);
    SeamsDurable(r.worlds);
    ResumeRun(p, SeamsIn(r.worlds), c, r.steps);
  }

  // ----- what a resume forgets -----

  /** After a resume, "everything but the unsynced records is durable" holds exactly when what the
      repair kept has become durable: because it already was before the crash, or by an fsync since. */
  lemma CountedIsDurableIff(p: Program, setup: Setup, s: Stage, r: Round)
    requires OverValues(p) && setup.format.Faithful() && Good(p, setup, s) && Feasible(s, r)
    ensures var t := Resume(p, setup, s, r);
            && Good(p, setup, t)
            && (Pinned(t.log, [], 0, t.events) <==> |Kept(setup, s, r)| <= t.log.file.durable)
            && (|Kept(setup, s, r)| <= s.log.file.durable ==> Pinned(t.log, [], 0, t.events))
  {
    CrashKeepsPrefix(p, setup, s, r);
    var survivors := Survivors(setup, s, r);
    TellPrefix(p, s.events, |survivors|);
    ResumedIsGood(p, setup, s, r);
    var t := Resume(p, setup, s, r);
    assert t.events[..|survivors|] == survivors[..|survivors|] == survivors;
    LinesOfPrefix(setup.format, t.events, |survivors|);
    CountedBound(t.log, t.events, |survivors|);
  }

  lemma CountedBound(l: Log, events: seq<Event>, n: nat)
    requires Holds(l, [], 0, events) && n <= Counted(l) && (Pinned(l, [], 0, events) || Counted(l) == n)
    ensures Pinned(l, [], 0, events) <==> |Lines(l.format, events, 0, n)| <= l.file.durable
  {
    var m := Counted(l);
    LinesSplit(l.format, events, 0, n, m);
    assert [] + Lines(l.format, events, 0, m) == Lines(l.format, events, 0, m);
  }

  /** The crash takes the process only, and the resume has not gone a step yet. */
  predicate Kills(s: Stage, r: Round) {
    r.cut == |s.log.file.bytes| && r.steps == 0 && Feasible(s, r)
  }

  lemma KillKeepsAll(p: Program, setup: Setup, s: Stage, r: Round)
    requires OverValues(p) && setup.format.Faithful() && Good(p, setup, s) && Kills(s, r)
    ensures Kept(setup, s, r) == s.log.file.bytes && Survivors(setup, s, r) == s.events[..s.log.persisted]
  {
    var f, k := setup.format, s.log.persisted;
    ReadingsOnly(p, s.events, Retell(p, s.events));
    assert [] + Lines(f, s.events, 0, k) == Lines(f, s.events, 0, k) == s.log.file.bytes;
    TornLogRepairs(f, s.events, k, r.cut);
    assert s.log.file.bytes[..r.cut] == s.log.file.bytes;
    assert LineStart(f, s.events, k) == r.cut;
    StartsGrow(f, s.events, WholeLines(f, s.events, k, r.cut), k);
  }

  /** A process killed before its first fsync and resumed: the appender reports nothing unsynced, yet a
      power loss may still take every record. */
  lemma ResumeForgetsUnsynced(p: Program, setup: Setup, s: Stage, r: Round, next: Round)
    requires OverValues(p) && setup.format.Faithful() && Good(p, setup, s)
    requires s.log.file.durable == 0 && s.log.persisted > 0 && Kills(s, r) && next.cut == 0
    ensures var t := Resume(p, setup, s, r);
            && Good(p, setup, t)
            && t.log.unsynced == 0 && t.log.persisted == s.log.persisted
            && !Pinned(t.log, [], 0, t.events)
            && Feasible(t, next) && Survivors(setup, t, next) == []
  {
    KillKeepsAll(p, setup, s, r);
    CountedIsDurableIff(p, setup, s, r);
    SomeBytes(setup.format, s.events, s.log.persisted);
  }

  /** Such a process: any workflow that first reads the clock, under a window and a cap that are not yet
      used up, killed right after that read. */
  lemma FirstReadIsUnsynced(p: Program, setup: Setup, seed: bv64, start: Double, worlds: nat -> World)
    requires OverValues(p) && p([]) == Some(WantClock)
    requires setup.maxEvents > 1 && setup.windowMs > 0.0
    requires worlds(0).io.writeOk && worlds(0).io.checked == worlds(0).io.now
    ensures var s := Fresh(p, setup, seed, start, worlds, 1);
      Good(p, setup, s) && s.log.file.durable == 0 && s.log.persisted == 1 && s.log.unsynced == 1
  {
    FreshIsGood(p, setup, seed, start, worlds, 1);
    var c := Recording(false, seed, start, setup.prng).(group := Some(Appender(setup, File([], 0), 0)));
    assert Run(p, SeamsIn(worlds), c, 0) == ([], c);
    assert Run(p, SeamsIn(worlds), c, 1).1 == Push(c, ClockRead(start), worlds(0).io);
  }

  lemma SomeBytes(f: Format, events: seq<Event>, k: nat)
    requires 0 < k <= |events| && f.FramesOne(k - 1, events[k - 1])
    ensures |Lines(f, events, 0, k)| > 0
  {
  }

  /** Two runs were answered alike wherever both came, as far as `n` answers. */
  predicate Agree(xs: seq<Answer>, ys: seq<Answer>, n: nat) {
    forall i :: 0 <= i < |xs| && i < |ys| && i < n ==> xs[i] == ys[i]
  }

  // ----- any number of rounds -----

  /** The stage after a series of crashes and resumes; nothing if some crash asks for a cut the
      file could not have been left at. */
  function After(p: Program, setup: Setup, s: Stage, rounds: seq<Round>): Option<Stage> {
    if rounds == [] then Some(s)
    else
      var n := |rounds| - 1;
      match After(p, setup, s, rounds[..n])
      case None => None
      case Some(t) => if Feasible(t, rounds[n]) then Some(Resume(p, setup, t, rounds[n])) else None
  }

  /** Whatever crashes and resumes follow, however the file was torn and whatever writes and
      fsyncs failed: no record that was fsynced is ever lost or changed, no answer that rests on
      one ever changes, and the log stays the record of a run of the program. */
  lemma {:induction false} CrashesLoseNothingSynced(p: Program, setup: Setup, s: Stage, rounds: seq<Round>)
    requires OverValues(p) && setup.format.Faithful() && Good(p, setup, s)
    ensures match After(p, setup, s, rounds)
            case None => true
            case Some(t) =>
              && Good(p, setup, t)
              && s.events[..Synced(s)] <= t.events
              && Agree(s.shown, t.shown, Synced(s))
              && Synced(s) <= Synced(t)
  {
    if rounds == [] {
      assert s.events[..Synced(s)] <= s.events;
    } else {
      var n := |rounds| - 1;
      CrashesLoseNothingSynced(p, setup, s, rounds[..n]);
      match After(p, setup, s, rounds[..n]) {
        case None =>
        case Some(t) =>
          if Feasible(t, rounds[n]) {
            RoundKeeps(p, setup, t, rounds[n]);
            var u, survivors := Resume(p, setup, t, rounds[n]), Survivors(setup, t, rounds[n]);
            var kept := s.events[..Synced(s)];
            assert kept <= t.events && |kept| <= |survivors|;
            assert kept <= survivors;
            SamePast(p, s.events, u.events, kept, s.shown, u.shown);
          }
      }
    }
  }

  /** The log a good stage leaves in memory reproduces its run: strict replay of it, under any
      seed and start, gives every answer the program was shown, with no divergence. */
  lemma LogReproducesRun(p: Program, setup: Setup, s: Stage, worlds: nat -> World, rep: Context)
    requires Good(p, setup, s)
    requires rep.mode == Replay && rep.cursor == 0 && rep.pending.None? && rep.events == s.events
    ensures var (xs, c) := Run(p, SeamsIn(worlds), rep, |s.shown|);
            && xs == s.shown && c.events == s.events && c.mode == Replay && c.pending.None?
            && c.cursor == |s.shown|
  {
    SeamsSound(worlds);
    assert rep.events[0..|s.events|] == s.events;
    ReplayRun(p, SeamsIn(worlds), rep, s.events, Retell(p, s.events), |s.shown|);
  }
}
