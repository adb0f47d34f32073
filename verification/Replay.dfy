/** Whole runs of a deterministic program over the seams: recording it, replaying the record,
    replaying a slice of it, and what a replay that goes astray reports. */
module Replay {
  import opened Wrappers
  import opened Events
  import opened Rng
  import opened GroupLog
  import opened Determinism

  /** A deterministic program: the answers so far decide the next request, or that it ends. */
  type Program = seq<Answer> -> Option<Request>

  /** What answers a request: the context it finds, the request, and the number of the step. */
  type Seams = (Context, Request, nat) -> (Answer, Context)

  /** The seams of the determinism context, the outside world fixed step by step. */
  function SeamsIn(ws: nat -> World): Seams {
    (c: Context, r: Request, k: nat) => Serve(c, r, ws(k))
  }

  /** At most `n` steps of `p`, starting from context `c`. */
  function Run(p: Program, seams: Seams, c: Context, n: nat): (res: (seq<Answer>, Context))
    ensures |res.0| <= n
  {
    if n == 0 then ([], c)
    else
      var (answers, c') := Run(p, seams, c, n - 1);
      match p(answers)
      case None => (answers, c')
      case Some(r) =>
        var (a, next) := seams(c', r, |answers|);
        (answers + [a], next)
  }

  /** What a run needs to know of the seams: in Record they append an event that explains the
      answer; in Replay they answer from the cursor when the event there is the request's own. */
  ghost predicate Sound(seams: Seams) {
    forall c, r, k: nat :: RecordsAt(seams, c, r, k) && ReplaysAt(seams, c, r, k)
  }

  ghost predicate RecordsAt(seams: Seams, c: Context, r: Request, k: nat) {
    c.mode == Record ==>
      var (a, c') := seams(c, r, k);
      && c'.mode == Record && c'.strict == c.strict && c'.pending == c.pending && c'.cursor == c.cursor
      && |c'.events| == |c.events| + 1 && c'.events[..|c.events|] == c.events
      && Replayed(r, c'.events[|c.events|]) == Some(a)
  }

  ghost predicate ReplaysAt(seams: Seams, c: Context, r: Request, k: nat) {
    c.mode == Replay && AtCursor(c, r).Some? ==>
      && seams(c, r, k).0 == AtCursor(c, r).value
      && seams(c, r, k).1 == c.(cursor := c.cursor + 1, clock := seams(c, r, k).1.clock)
  }

  lemma SeamsSound(ws: nat -> World)
    ensures Sound(SeamsIn(ws))
  {
    forall c, r, k: nat ensures RecordsAt(SeamsIn(ws), c, r, k) && ReplaysAt(SeamsIn(ws), c, r, k) {
      if c.mode == Record { RecordStep(c, r, ws(k)); }
      else if AtCursor(c, r).Some? { ReplayStep(c, r, ws(k)); }
    }
  }

  lemma RecordStep(c: Context, r: Request, w: World)
    requires c.mode == Record
    ensures var (a, c') := Serve(c, r, w);
            && c'.mode == Record && c'.strict == c.strict && c'.pending == c.pending && c'.cursor == c.cursor
            && |c'.events| == |c.events| + 1 && c'.events[..|c.events|] == c.events
            && Replayed(r, c'.events[|c.events|]) == Some(a)
  {
    var a := if r.IsValue() then Draw(c, r).0 else w.Answer(r);
    RecordedReplays(r, a, r);
  }

  lemma ReplayStep(c: Context, r: Request, w: World)
    requires c.mode == Replay && AtCursor(c, r).Some?
    ensures Serve(c, r, w).0 == AtCursor(c, r).value
    ensures Serve(c, r, w).1 == c.(cursor := c.cursor + 1, clock := Serve(c, r, w).1.clock)
  {
  }

  /** `events` is what `p` leaves behind when it gets `answers`. */
  ghost predicate Explains(p: Program, events: seq<Event>, answers: seq<Answer>) {
    |events| == |answers| && forall k :: 0 <= k < |events| ==> ExplainsAt(p, events[k], answers, k)
  }

  ghost predicate ExplainsAt(p: Program, e: Event, answers: seq<Answer>, k: nat)
    requires k < |answers|
  {
    p(answers[..k]).Some? && Replayed(p(answers[..k]).value, e) == Some(answers[k])
  }

  lemma ExplainsMore(p: Program, events: seq<Event>, answers: seq<Answer>, e: Event, a: Answer)
    requires Explains(p, events, answers)
    requires p(answers).Some? && Replayed(p(answers).value, e) == Some(a)
    ensures Explains(p, events + [e], answers + [a])
  {
    var es, xs := events + [e], answers + [a];
    forall k | 0 <= k < |es| ensures ExplainsAt(p, es[k], xs, k) {
      assert xs[..k] == answers[..k];
      if k < |events| {
        assert ExplainsAt(p, events[k], answers, k);
      } else {
        assert answers[..k] == answers;
      }
    }
  }

  lemma ExplainsPrefix(p: Program, events: seq<Event>, answers: seq<Answer>, m: nat)
    requires Explains(p, events, answers) && m <= |events|
    ensures Explains(p, events[..m], answers[..m])
  {
    forall k | 0 <= k < m ensures ExplainsAt(p, events[..m][k], answers[..m], k) {
      assert ExplainsAt(p, events[k], answers, k);
      assert answers[..m][..k] == answers[..k];
    }
  }

  /** A log leaves a deterministic program no choice: it explains one run only. */
  lemma {:induction false} ExplainsOnce(p: Program, events: seq<Event>, xs: seq<Answer>, ys: seq<Answer>)
    requires Explains(p, events, xs) && Explains(p, events, ys)
    ensures xs == ys
    decreases |events|
  {
    if events != [] {
      var n := |events| - 1;
      ExplainsPrefix(p, events, xs, n);
      ExplainsPrefix(p, events, ys, n);
      ExplainsOnce(p, events[..n], xs[..n], ys[..n]);
      assert ExplainsAt(p, events[n], xs, n) && ExplainsAt(p, events[n], ys, n);
      assert xs == xs[..n] + [xs[n]] && ys == ys[..n] + [ys[n]];
    }
  }

  // ----- recording and replaying -----

  /** In Record mode a context stays in Record mode and appends the explanation of its run. */
  lemma {:induction false} RecordRun(p: Program, seams: Seams, c: Context, n: nat)
    requires Sound(seams) && c.mode == Record
    ensures var (answers, c') := Run(p, seams, c, n);
            && c'.mode == Record && c'.strict == c.strict && c'.pending == c.pending && c'.cursor == c.cursor
            && c.events <= c'.events
            && Explains(p, c'.events[|c.events|..], answers)
  {
    if n > 0 {
      RecordRun(p, seams, c, n - 1);
      var (answers, c') := Run(p, seams, c, n - 1);
      if p(answers).Some? {
        var r := p(answers).value;
        var (a, next) := seams(c', r, |answers|);
        assert RecordsAt(seams, c', r, |answers|);
        var e := next.events[|c'.events|];
        assert next.events[|c.events|..] == c'.events[|c.events|..] + [e];
        ExplainsMore(p, c'.events[|c.events|..], answers, e, a);
      }
    }
  }

  /** As long as the log explains the run, replay answers from it and touches nothing else. */
  lemma {:induction false} ReplayRun(p: Program, seams: Seams, c: Context, log: seq<Event>, answers: seq<Answer>, m: nat)
    requires Sound(seams) && c.mode == Replay
    requires c.cursor + |log| <= |c.events| && c.events[c.cursor..c.cursor + |log|] == log
    requires Explains(p, log, answers) && m <= |log|
    ensures var (xs, c') := Run(p, seams, c, m);
            && xs == answers[..m]
            && c' == c.(cursor := c.cursor + m, clock := c'.clock)
  {
    if m > 0 {
      ReplayRun(p, seams, c, log, answers, m - 1);
      var (xs, c') := Run(p, seams, c, m - 1);
      assert ExplainsAt(p, log[m - 1], answers, m - 1);
      assert c.events[c.cursor + (m - 1)] == log[m - 1];
      assert ReplaysAt(seams, c', p(xs).value, |xs|);
      assert answers[..m] == answers[..m - 1] + [answers[m - 1]];
    }
  }

  /** A program that has ended stays ended. */
  lemma {:induction false} RunStops(p: Program, seams: Seams, c: Context, m: nat, n: nat)
    requires m <= n && p(Run(p, seams, c, m).0).None?
    ensures Run(p, seams, c, n) == Run(p, seams, c, m)
  {
    if m < n {
      RunStops(p, seams, c, m, n - 1);
    }
  }

  /** A longer run begins with the shorter one, and only the program's end makes a run short. */
  lemma {:induction false} RunGrows(p: Program, seams: Seams, c: Context, m: nat, n: nat)
    requires m <= n
    ensures Run(p, seams, c, m).0 <= Run(p, seams, c, n).0
    ensures |Run(p, seams, c, m).0| < m ==> p(Run(p, seams, c, m).0).None?
  {
    if m < n {
      RunGrows(p, seams, c, m, n - 1);
    } else if m > 0 {
      RunGrows(p, seams, c, m - 1, m - 1);
    }
  }

  /** Replay fidelity. Record `n` steps of any deterministic program, over all nine seams and in
      any world; replay the log, strict or lenient, under any other seed, start time and world.
      At every step the answers are the recorded ones, the log is untouched, the context stays in
      Replay with no divergence, and at the end the whole log has been consumed. */
  lemma Fidelity(p: Program, ws: nat -> World, rec: Context, n: nat, ws': nat -> World, rep: Context, m: nat)
    requires rec.mode == Record && rec.events == []
    requires rep.mode == Replay && rep.cursor == 0 && rep.pending.None?
    requires rep.events == Run(p, SeamsIn(ws), rec, n).1.events
    requires m <= n
    ensures var (xs, c) := Run(p, SeamsIn(ws'), rep, m);
            && xs == Run(p, SeamsIn(ws), rec, m).0
            && c.events == rep.events && c.mode == Replay && c.pending.None? && c.cursor == |xs|
            && (m == n ==> c.cursor == |c.events|)
  {
    SeamsSound(ws);
    SeamsSound(ws');
    FollowRecord(p, SeamsIn(ws), rec, n, SeamsIn(ws'), rep, m);
  }

  lemma FollowRecord(p: Program, seams: Seams, rec: Context, n: nat, seams': Seams, rep: Context, m: nat)
    requires Sound(seams) && Sound(seams') && m <= n
    requires rec.mode == Record && rec.events == []
    requires rep.mode == Replay && rep.cursor == 0 && rep.events == Run(p, seams, rec, n).1.events
    ensures var (xs, c) := Run(p, seams', rep, m);
            && xs == Run(p, seams, rec, m).0
            && c == rep.(cursor := |xs|, clock := c.clock)
            && (m == n ==> |xs| == |rep.events|)
  {
    var (answers, last) := Run(p, seams, rec, n);
    RecordRun(p, seams, rec, n);
    assert last.events[0..] == last.events;
    RunGrows(p, seams, rec, m, n);
    RunGrows(p, seams, rec, m, m);
    var shorter := Run(p, seams, rec, m).0;
    assert answers[..|shorter|] == shorter;
    assert rep.events[0..|rep.events|] == rep.events;
    ReplayRun(p, seams', rep, rep.events, answers, |shorter|);
    if |shorter| < m {
      RunStops(p, seams', rep, |shorter|, m);
    }
  }

  // ----- strict replay of requests nobody recorded -----

  /** The answers to `rs`, served in turn whatever asked for them, and the context after. */
  function ServeAll(seams: Seams, c: Context, rs: seq<Request>): (res: (seq<Answer>, Context))
    ensures |res.0| == |rs|
  {
    if rs == [] then ([], c)
    else
      var n := |rs| - 1;
      var (answers, c') := ServeAll(seams, c, rs[..n]);
      var (a, next) := seams(c', rs[n], n);
      (answers + [a], next)
  }

  /** Request `i` finds its own event at index `i`. */
  predicate InStep(events: seq<Event>, rs: seq<Request>, i: nat)
    requires i < |rs|
  {
    i < |events| && Replayed(rs[i], events[i]).Some?
  }

  /** The first request out of step, or their number when there is none. */
  function FirstOut(events: seq<Event>, rs: seq<Request>): (n: nat)
    ensures n <= |rs|
    ensures forall j :: 0 <= j < n ==> InStep(events, rs, j)
    ensures n < |rs| ==> !InStep(events, rs, n)
  {
    if rs == [] then 0
    else
      var front := rs[..|rs| - 1];
      var n := FirstOut(events, front);
      assert forall j :: 0 <= j < n ==> InStep(events, front, j) ==> InStep(events, rs, j);
      if n < |front| || !InStep(events, rs, n) then n else n + 1
  }

  lemma FirstOutMore(events: seq<Event>, rs: seq<Request>)
    requires rs != []
    ensures var front := rs[..|rs| - 1]; var n := FirstOut(events, front);
      FirstOut(events, rs) == if n < |front| || !InStep(events, rs, n) then n else n + 1
  {
  }

  /** How many of `rs` a cursor that moves only on a match answers. */
  function Answered(events: seq<Event>, rs: seq<Request>): (n: nat)
    ensures n <= |rs|
  {
    if rs == [] then 0
    else
      var n := Answered(events, rs[..|rs| - 1]);
      if n < |events| && Replayed(rs[|rs| - 1], events[n]).Some? then n + 1 else n
  }

  /** What the request out of step at `i` is reported as. */
  function ComplaintAt(events: seq<Event>, rs: seq<Request>, i: nat): Divergence
    requires i < |rs|
  {
    if i < |events| then Mismatch(i, WantedKind(rs[i]), KindName(events[i])) else Exhausted(i, WantedKind(rs[i]))
  }

  ghost predicate StrictlyAt(seams: Seams, c: Context, r: Request, k: nat) {
    c.mode == Replay && c.strict && (r.IsValue() || r.IsTraced()) ==>
      var c' := seams(c, r, k).1;
      && c'.events == c.events && c'.mode == Replay && c'.strict && c'.group == c.group
      && c'.cursor == c.cursor + (if AtCursor(c, r).Some? then 1 else 0)
      && c'.pending == if AtCursor(c, r).Some? || c.pending.Some? then c.pending else Some(Complaint(c, r))
  }

  lemma {:induction false} AnsweredInStep(events: seq<Event>, rs: seq<Request>)
    ensures FirstOut(events, rs) <= Answered(events, rs)
    ensures FirstOut(events, rs) == |rs| ==> Answered(events, rs) == |rs|
    ensures FirstOut(events, rs) == |rs| - 1 ==> Answered(events, rs) == |rs| - 1
  {
    if rs != [] {
      AnsweredInStep(events, rs[..|rs| - 1]);
    }
  }

  /** Strict replay, for every sequence of value and traced requests: the log and the mode never
      change, the cursor counts the answered requests, and a divergence is pending exactly when
      some request was out of step; it then names the first such request. */
  lemma StrictReplay(ws: nat -> World, c: Context, rs: seq<Request>)
    requires c.mode == Replay && c.strict && c.cursor == 0 && c.pending.None?
    requires forall r :: r in rs ==> r.IsValue() || r.IsTraced()
    ensures var c', n := ServeAll(SeamsIn(ws), c, rs).1, FirstOut(c.events, rs);
            && c'.events == c.events && c'.mode == Replay && c'.strict && c'.group == c.group
            && c'.cursor == Answered(c.events, rs)
            && c'.pending == (if n == |rs| then None else Some(ComplaintAt(c.events, rs, n)))
            && (c'.pending.None? ==> c'.cursor == |rs|)
  {
    forall c, r, k: nat ensures StrictlyAt(SeamsIn(ws), c, r, k) {
      if c.mode == Replay && c.strict && (r.IsValue() || r.IsTraced()) {
        StrictStep(c, r, ws(k));
      }
    }
    StrictServeAll(SeamsIn(ws), c, rs);
    AnsweredInStep(c.events, rs);
  }

  lemma {:induction false} StrictServeAll(seams: Seams, c: Context, rs: seq<Request>)
    requires forall c, r, k: nat :: StrictlyAt(seams, c, r, k)
    requires c.mode == Replay && c.strict && c.cursor == 0 && c.pending.None?
    requires forall r :: r in rs ==> r.IsValue() || r.IsTraced()
    ensures var c', n := ServeAll(seams, c, rs).1, FirstOut(c.events, rs);
            && c'.events == c.events && c'.mode == Replay && c'.strict && c'.group == c.group
            && c'.cursor == Answered(c.events, rs)
            && c'.pending == (if n == |rs| then None else Some(ComplaintAt(c.events, rs, n)))
  {
    if rs != [] {
      var k := |rs| - 1;
      var front := rs[..k];
      StrictServeAll(seams, c, front);
      AnsweredInStep(c.events, front);
      assert rs[k] in rs;
      var before := ServeAll(seams, c, front).1;
      assert StrictlyAt(seams, before, rs[k], k);
      FirstOutMore(c.events, rs);
    }
  }

  lemma StrictStep(c: Context, r: Request, w: World)
    requires c.mode == Replay && c.strict
    requires r.IsValue() || r.IsTraced()
    ensures var c' := Serve(c, r, w).1;
            && c'.events == c.events && c'.mode == Replay && c'.strict && c'.group == c.group
            && c'.cursor == c.cursor + (if AtCursor(c, r).Some? then 1 else 0)
            && c'.pending == if AtCursor(c, r).Some? || c.pending.Some? then c.pending else Some(Complaint(c, r))
  {
    if r.IsValue() && AtCursor(c, r).None? {
      SentinelDraws(Diverge(c, Complaint(c, r)), r);
    }
  }

  /** A sentinel draws at most on the generator. */
  lemma SentinelDraws(c: Context, r: Request)
    requires r.IsValue()
    ensures Sentinel(c, r).1 == c.(rng := Sentinel(c, r).1.rng)
  {
  }

  /** A refused event does not leak: what strict replay answers instead is the same whatever the
      event at the cursor holds. */
  lemma StrictNeverLeaks(c: Context, other: seq<Event>, r: Request, w: World)
    requires c.mode == Replay && c.strict
    requires r.IsValue() || r.IsTraced()
    requires AtCursor(c, r).None? && AtCursor(c.(events := other), r).None?
    ensures Serve(c, r, w).0 == Serve(c.(events := other), r, w).0
  {
  }

  // ----- the mode -----

  /** A context never goes back from Record to Replay, so it switches at most once. */
  lemma {:induction false} RecordIsForGood(p: Program, seams: Seams, c: Context, m: nat, n: nat)
    requires Sound(seams) && m <= n
    requires Run(p, seams, c, m).1.mode == Record
    ensures Run(p, seams, c, n).1.mode == Record
  {
    if m < n {
      RecordIsForGood(p, seams, c, m, n - 1);
      var (answers, c') := Run(p, seams, c, n - 1);
      if p(answers).Some? {
        assert RecordsAt(seams, c', p(answers).value, |answers|);
      }
    }
  }
}
