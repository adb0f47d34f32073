/** Recording a test file under one context and cutting the trace of each failing test out of
    it: the events of the module load followed by that test's own segment. */
module TraceSlices {
  import opened Wrappers
  import opened Events
  import opened Determinism
  import opened Replay

  /** A test sees what the load answered and its own answers, and nothing of other tests. */
  datatype Test = Test(name: string, body: (seq<Answer>, seq<Answer>) -> Option<Request>)

  function ProgramOf(t: Test, loaded: seq<Answer>): Program {
    (own: seq<Answer>) => t.body(loaded, own)
  }

  /** One test as the recorder ran it: the index range of its segment, and what it was answered. */
  datatype Segment = Segment(name: string, start: nat, end: nat, answers: seq<Answer>)

  /** The registered tests run in turn in one context; phase `i` has its own outside world. */
  function RecordTests(phases: nat -> Seams, c: Context, loaded: seq<Answer>, tests: seq<Test>, fuel: nat)
    : (res: (seq<Segment>, Context))
    ensures |res.0| == |tests|
  {
    if tests == [] then ([], c)
    else
      var n := |tests| - 1;
      var (segments, before) := RecordTests(phases, c, loaded, tests[..n], fuel);
      var (answers, after) := Run(ProgramOf(tests[n], loaded), phases(n + 1), before, fuel);
      (segments + [Segment(tests[n].name, |before.events|, |after.events|, answers)], after)
  }

  /** The trace written for a segment. */
  function SliceOf(events: seq<Event>, prefixEnd: nat, start: nat, end: nat): seq<Event> {
    var lo := if start < |events| then start else |events|;
    var hi := if end < |events| then end else |events|;
    events[..if prefixEnd < |events| then prefixEnd else |events|] + (if lo <= hi then events[lo..hi] else [])
  }

  function Saved(events: seq<Event>, prefixEnd: nat, segments: seq<Segment>, failed: set<string>): seq<(string, seq<Event>)> {
    if segments == [] then []
    else
      var n := |segments| - 1;
      var s := segments[n];
      Saved(events, prefixEnd, segments[..n], failed) +
      (if s.name in failed then [(s.name, SliceOf(events, prefixEnd, s.start, s.end))] else [])
  }

  /** The saving loop: one trace per failed test, in the order they ran. */
  method SaveFailures(events: seq<Event>, prefixEnd: nat, segments: seq<Segment>, failed: set<string>)
    returns (saved: seq<(string, seq<Event>)>)
    ensures saved == Saved(events, prefixEnd, segments, failed)
    ensures failed == {} ==> saved == []
  {
    saved := [];
    var prefix := events[..if prefixEnd < |events| then prefixEnd else |events|];
    for i := 0 to |segments|
      invariant saved == Saved(events, prefixEnd, segments[..i], failed)
      invariant failed == {} ==> saved == []
    {
      assert segments[..i + 1][..i] == segments[..i];
      var s := segments[i];
      if s.name !in failed {
        continue;
      }
      var start := if s.start < |events| then s.start else |events|;
      var end := if s.end < |events| then s.end else |events|;
      var seg := if start <= end then events[start..end] else [];
      saved := saved + [(s.name, prefix + seg)];
    }
    assert segments[..|segments|] == segments;
  }

  ghost predicate AllSound(phases: nat -> Seams) {
    forall i: nat :: Sound(phases(i))
  }

  /** The segment's range of the log is the explanation of what its test was answered. */
  ghost predicate Holds(p: Program, events: seq<Event>, s: Segment, fuel: nat) {
    && s.start <= s.end <= |events| && |s.answers| <= fuel
    && Explains(p, events[s.start..s.end], s.answers)
  }

  lemma HoldsLater(p: Program, events: seq<Event>, more: seq<Event>, s: Segment, fuel: nat)
    requires Holds(p, events, s, fuel) && events <= more
    ensures Holds(p, more, s, fuel)
  {
    assert more[s.start..s.end] == events[s.start..s.end];
  }

  lemma NewSegmentHolds(p: Program, seams: Seams, c: Context, name: string, fuel: nat)
    requires Sound(seams) && c.mode == Record
    ensures var (answers, c') := Run(p, seams, c, fuel);
            && c'.mode == Record && c.events <= c'.events
            && Holds(p, c'.events, Segment(name, |c.events|, |c'.events|, answers), fuel)
  {
    RecordRun(p, seams, c, fuel);
    var c' := Run(p, seams, c, fuel).1;
    assert c'.events[|c.events|..|c'.events|] == c'.events[|c.events|..];
  }

  /** Each segment holds exactly the explanation of its own test, and later tests do not disturb it. */
  lemma {:induction false} SegmentsExplain(phases: nat -> Seams, c: Context, loaded: seq<Answer>, tests: seq<Test>,
      fuel: nat, k: nat)
    requires AllSound(phases) && c.mode == Record && k < |tests|
    ensures var (segments, c') := RecordTests(phases, c, loaded, tests, fuel);
            && segments[k].name == tests[k].name
            && Holds(ProgramOf(tests[k], loaded), c'.events, segments[k], fuel)
            && |c.events| <= segments[k].start
  {
    var n := |tests| - 1;
    RecordTestsGrow(phases, c, loaded, tests[..n], fuel);
    var (segments, before) := RecordTests(phases, c, loaded, tests[..n], fuel);
    NewSegmentHolds(ProgramOf(tests[n], loaded), phases(n + 1), before, tests[n].name, fuel);
    if k < n {
      SegmentsExplain(phases, c, loaded, tests[..n], fuel, k);
      HoldsLater(ProgramOf(tests[k], loaded), before.events, RecordTests(phases, c, loaded, tests, fuel).1.events,
          segments[k], fuel);
    }
  }

  lemma {:induction false} RecordTestsGrow(phases: nat -> Seams, c: Context, loaded: seq<Answer>, tests: seq<Test>, fuel: nat)
    requires AllSound(phases) && c.mode == Record
    ensures var c' := RecordTests(phases, c, loaded, tests, fuel).1;
            c'.mode == Record && c.events <= c'.events
  {
    if tests != [] {
      var n := |tests| - 1;
      RecordTestsGrow(phases, c, loaded, tests[..n], fuel);
      RecordRun(ProgramOf(tests[n], loaded), phases(n + 1), RecordTests(phases, c, loaded, tests[..n], fuel).1, fuel);
    }
  }

  /** What recording a file yields: the load's answers, where its events end, the segments, and
      the whole stream. */
  datatype Recording = Recording(loaded: seq<Answer>, prefixEnd: nat, segments: seq<Segment>, events: seq<Event>)

  function RecordFile(load: Program, tests: seq<Test>, phases: nat -> Seams, rec: Context, fuel: nat): (f: Recording)
    ensures |f.segments| == |tests|
  {
    var (loaded, c) := Run(load, phases(0), rec, fuel);
    var (segments, last) := RecordTests(phases, c, loaded, tests, fuel);
    Recording(loaded, |c.events|, segments, last.events)
  }

  function SliceFor(f: Recording, k: nat): seq<Event>
    requires k < |f.segments|
  {
    SliceOf(f.events, f.prefixEnd, f.segments[k].start, f.segments[k].end)
  }

  lemma RecordingExplains(load: Program, tests: seq<Test>, phases: nat -> Seams, rec: Context, fuel: nat, k: nat)
    requires AllSound(phases) && rec.mode == Record && rec.events == [] && k < |tests|
    ensures var f := RecordFile(load, tests, phases, rec, fuel);
            && f.prefixEnd <= |f.events| && |f.loaded| <= fuel
            && Explains(load, f.events[..f.prefixEnd], f.loaded)
            && Holds(ProgramOf(tests[k], f.loaded), f.events, f.segments[k], fuel)
  {
    var (loaded, c) := Run(load, phases(0), rec, fuel);
    LoadExplains(load, phases(0), rec, fuel);
    SegmentsExplain(phases, c, loaded, tests, fuel, k);
    RecordTestsGrow(phases, c, loaded, tests, fuel);
    assert RecordTests(phases, c, loaded, tests, fuel).1.events[..|c.events|] == c.events;
  }

  /** Trace slicing is faithful. A file is loaded and its tests run under one recording context;
      load and test `k` came to their ends. Replaying the load and then test `k` alone, strictly,
      from the load's events followed by segment `k`, answers every request as it was recorded,
      sets no divergence, and consumes the slice to its last event. */
  lemma SliceIsFaithful(load: Program, tests: seq<Test>, k: nat, phases: nat -> Seams, rec: Context, fuel: nat,
                        f: Recording, loading: Seams, testing: Seams, rep: Context)
    requires AllSound(phases) && Sound(loading) && Sound(testing)
    requires rec.mode == Record && rec.events == [] && k < |tests|
    requires f == RecordFile(load, tests, phases, rec, fuel)
    requires load(f.loaded).None? && tests[k].body(f.loaded, f.segments[k].answers).None?
    requires rep.mode == Replay && rep.strict && rep.cursor == 0 && rep.pending.None?
    requires rep.events == SliceFor(f, k)
    ensures var (loaded, mid) := Run(load, loading, rep, fuel);
            var (own, end) := Run(ProgramOf(tests[k], loaded), testing, mid, fuel);
            && loaded == f.loaded && own == f.segments[k].answers
            && end.mode == Replay && end.pending.None?
            && end.events == rep.events && end.cursor == |rep.events|
  {
    RecordingExplains(load, tests, phases, rec, fuel, k);
    var s := f.segments[k];
    SliceReplays(load, ProgramOf(tests[k], f.loaded), loading, testing, rep, f.events[..f.prefixEnd], f.loaded,
                 f.events[s.start..s.end], s.answers, fuel);
  }

  // ----- what is saved -----

  function Names(tests: seq<Test>): seq<string> {
    seq(|tests|, k requires 0 <= k < |tests| => tests[k].name)
  }

  /** The numbers of the tests that failed, in the order they ran. */
  function FailedOf(names: seq<string>, failed: set<string>): (ks: seq<nat>)
    ensures forall i :: 0 <= i < |ks| ==> ks[i] < |names| && names[ks[i]] in failed
    ensures forall k: nat :: k < |names| && names[k] in failed ==> k in ks
    ensures forall i, j :: 0 <= i < j < |ks| ==> ks[i] < ks[j]
  {
    if names == [] then []
    else
      var n := |names| - 1;
      var ks := FailedOf(names[..n], failed);
      assert forall k: nat :: k < n && names[k] in failed ==> names[..n][k] == names[k];
      if names[n] in failed then ks + [n] else ks
  }

  /** The traces saved are those of the failed tests, in order, each under its test's name. */
  lemma {:induction false} SavedAre(events: seq<Event>, prefixEnd: nat, segments: seq<Segment>, names: seq<string>,
      failed: set<string>)
    requires |names| == |segments| && forall k :: 0 <= k < |names| ==> segments[k].name == names[k]
    ensures var saved, ks := Saved(events, prefixEnd, segments, failed), FailedOf(names, failed);
            |saved| == |ks| && forall i :: 0 <= i < |ks| ==>
              saved[i] == (names[ks[i]], SliceOf(events, prefixEnd, segments[ks[i]].start, segments[ks[i]].end))
    decreases |segments|
  {
    if segments != [] {
      var n := |segments| - 1;
      SavedAre(events, prefixEnd, segments[..n], names[..n], failed);
    }
  }

  /** Saving and replaying. A file is loaded and its tests run under one recording context, and the traces of the
      failed tests are saved: one for each, in the order they ran, under their names. Where the load and test `k`
      came to their ends, strict replay of the load and of that test alone from the trace saved for it answers
      every request as it was recorded, sets no divergence, and consumes the trace to its last event. */
  lemma SavedTracesReplay(load: Program, tests: seq<Test>, failed: set<string>, i: nat, phases: nat -> Seams, rec: Context,
                          fuel: nat, f: Recording, loading: Seams, testing: Seams, rep: Context)
    requires AllSound(phases) && Sound(loading) && Sound(testing)
    requires rec.mode == Record && rec.events == [] && f == RecordFile(load, tests, phases, rec, fuel)
    requires i < |FailedOf(Names(tests), failed)|
    requires var k := FailedOf(Names(tests), failed)[i];
             load(f.loaded).None? && tests[k].body(f.loaded, f.segments[k].answers).None?
    requires rep.mode == Replay && rep.strict && rep.cursor == 0 && rep.pending.None?
    ensures var saved, k := Saved(f.events, f.prefixEnd, f.segments, failed), FailedOf(Names(tests), failed)[i];
            && |saved| == |FailedOf(Names(tests), failed)| && saved[i].0 == tests[k].name
            && (rep.events == saved[i].1 ==>
                  var (loaded, mid) := Run(load, loading, rep, fuel);
                  var (own, end) := Run(ProgramOf(tests[k], loaded), testing, mid, fuel);
                  && loaded == f.loaded && own == f.segments[k].answers
                  && end.mode == Replay && end.pending.None?
                  && end.events == rep.events && end.cursor == |rep.events|)
  {
    var k := FailedOf(Names(tests), failed)[i];
    SegmentsNamed(load, tests, phases, rec, fuel);
    SavedAre(f.events, f.prefixEnd, f.segments, Names(tests), failed);
    if rep.events == Saved(f.events, f.prefixEnd, f.segments, failed)[i].1 {
      SliceIsFaithful(load, tests, k, phases, rec, fuel, f, loading, testing, rep);
    }
  }

  lemma SegmentsNamed(load: Program, tests: seq<Test>, phases: nat -> Seams, rec: Context, fuel: nat)
    requires AllSound(phases) && rec.mode == Record && rec.events == []
    ensures forall k :: 0 <= k < |tests| ==> RecordFile(load, tests, phases, rec, fuel).segments[k].name == tests[k].name
  {
    var (loaded, c) := Run(load, phases(0), rec, fuel);
    LoadExplains(load, phases(0), rec, fuel);
    forall k | 0 <= k < |tests| ensures RecordFile(load, tests, phases, rec, fuel).segments[k].name == tests[k].name {
      SegmentsExplain(phases, c, loaded, tests, fuel, k);
    }
  }

  lemma LoadExplains(load: Program, seams: Seams, rec: Context, fuel: nat)
    requires Sound(seams) && rec.mode == Record && rec.events == []
    ensures var (loaded, c) := Run(load, seams, rec, fuel);
            c.mode == Record && Explains(load, c.events, loaded)
  {
    RecordRun(load, seams, rec, fuel);
    var c := Run(load, seams, rec, fuel).1;
    assert c.events[0..] == c.events;
  }

  /** Two explained stretches, one after the other, replay one after the other. */
  lemma SliceReplays(load: Program, test: Program, loading: Seams, testing: Seams, rep: Context,
                     prefix: seq<Event>, loaded: seq<Answer>, own: seq<Event>, answers: seq<Answer>, fuel: nat)
    requires Sound(loading) && Sound(testing)
    requires rep.mode == Replay && rep.cursor == 0 && rep.events == prefix + own
    requires Explains(load, prefix, loaded) && load(loaded).None? && |loaded| <= fuel
    requires Explains(test, own, answers) && test(answers).None? && |answers| <= fuel
    ensures var (loaded', mid) := Run(load, loading, rep, fuel);
            var (answers', end) := Run(test, testing, mid, fuel);
            && loaded' == loaded && answers' == answers
            && end == rep.(cursor := |rep.events|, clock := end.clock)
  {
    ReplayToEnd(load, loading, rep, prefix, loaded, fuel);
    var mid := Run(load, loading, rep, fuel).1;
    assert mid.events[mid.cursor..mid.cursor + |own|] == own;
    ReplayToEnd(test, testing, mid, own, answers, fuel);
  }

  /** A run that came to its end replays to the end of what it left. */
  lemma ReplayToEnd(p: Program, seams: Seams, c: Context, log: seq<Event>, answers: seq<Answer>, fuel: nat)
    requires Sound(seams) && c.mode == Replay
    requires c.cursor + |log| <= |c.events| && c.events[c.cursor..c.cursor + |log|] == log
    requires Explains(p, log, answers) && p(answers).None? && |answers| <= fuel
    ensures var (xs, c') := Run(p, seams, c, fuel);
            && xs == answers
            && c' == c.(cursor := c.cursor + |log|, clock := c'.clock)
  {
    ReplayRun(p, seams, c, log, answers, |log|);
    assert answers[..|log|] == answers;
    RunStops(p, seams, c, |log|, fuel);
  }
}
